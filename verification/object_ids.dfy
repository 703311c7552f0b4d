/** Store identifiers (bson ObjectIds, as marble_api/utils/models.py converts
    them). An ObjectId is twelve bytes, written as 24 hexadecimal digits; the
    store orders identifiers by their bytes, which is the order of the numbers
    they spell. The model accepts exactly the strings of 24 hex digits of
    either case (the whitespace that bytes.fromhex tolerates between digit
    pairs is not modelled); an identifier is rendered as 24 lower-case digits. */
module ObjectIds {
  import opened Wrappers

  /** Number of hexadecimal digits in a rendered identifier. */
  const IdLength: nat := 24

  function Pow16(n: nat): (p: nat)
    ensures p > 0
  {
    if n == 0 then 1 else 16 * Pow16(n - 1)
  }

  /** Identifiers are the numbers below 16^24 = 2^96. */
  const IdBound: nat := Pow16(IdLength)

  /** The value of a hexadecimal digit of either case. */
  function HexValue(c: char): (r: Option<nat>)
    ensures r.Some? ==> r.value < 16
  {
    if '0' <= c <= '9' then Some(c as nat - '0' as nat)
    else if 'a' <= c <= 'f' then Some(c as nat - 'a' as nat + 10)
    else if 'A' <= c <= 'F' then Some(c as nat - 'A' as nat + 10)
    else None
  }

  /** The lower-case hexadecimal digit for d. */
  function HexDigit(d: nat): (c: char)
    requires d < 16
    ensures HexValue(c) == Some(d)
  {
    if d < 10 then ('0' as nat + d) as char else ('a' as nat + d - 10) as char
  }

  /** The number a string of hexadecimal digits spells, most significant first;
      None when some character is not a hexadecimal digit. */
  function ParseHex(s: string): (r: Option<nat>)
    ensures r.Some? ==> r.value < Pow16(|s|)
  {
    if |s| == 0 then Some(0)
    else
      match (ParseHex(s[..|s| - 1]), HexValue(s[|s| - 1]))
      case (Some(high), Some(low)) =>
        assert high * 16 + low < Pow16(|s|) by {
          assert high <= Pow16(|s| - 1) - 1;
          assert high * 16 <= (Pow16(|s| - 1) - 1) * 16;
        }
        Some(high * 16 + low)
      case _ => None
  }

  /** The last `width` hexadecimal digits of n, most significant first. */
  function RenderHex(n: nat, width: nat): (s: string)
    ensures |s| == width
  {
    if width == 0 then [] else RenderHex(n / 16, width - 1) + [HexDigit(n % 16)]
  }

  /** bson.ObjectId(s): the identifier a 24-digit hexadecimal string denotes. */
  function ParseObjectId(s: string): (r: Option<nat>)
    ensures r.Some? ==> |s| == IdLength && r.value < IdBound
  {
    if |s| != IdLength then None else ParseHex(s)
  }

  /** str(ObjectId): the 24 lower-case hexadecimal digits of an identifier. */
  function RenderObjectId(id: nat): (s: string)
    ensures |s| == IdLength
  {
    RenderHex(id, IdLength)
  }

  lemma {:induction false} ParseRenderHex(n: nat, width: nat)
    requires n < Pow16(width)
    ensures ParseHex(RenderHex(n, width)) == Some(n)
  {
    if width > 0 {
      var s := RenderHex(n, width);
      assert n / 16 < Pow16(width - 1);
      ParseRenderHex(n / 16, width - 1);
      assert s[..|s| - 1] == RenderHex(n / 16, width - 1);
      assert s[|s| - 1] == HexDigit(n % 16);
    }
  }

  /** Rendering an identifier and parsing it back gives the identifier: a cursor
      handed out in a link finds the record it was taken from. */
  lemma ParseRenderObjectId(id: nat)
    requires id < IdBound
    ensures ParseObjectId(RenderObjectId(id)) == Some(id)
  {
    ParseRenderHex(id, IdLength);
  }

  /** Distinct identifiers render to distinct strings. */
  lemma RenderObjectIdInjective(id1: nat, id2: nat)
    requires id1 < IdBound && id2 < IdBound
    requires RenderObjectId(id1) == RenderObjectId(id2)
    ensures id1 == id2
  {
    ParseRenderObjectId(id1);
    ParseRenderObjectId(id2);
  }
}
