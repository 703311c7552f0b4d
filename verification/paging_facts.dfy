/** Properties of the paginated listing, stated on the listing m of the
    records a scope may list (Routes.FirstPage and Routes.FollowLink show that
    the route answers the first request and every link it hands out with
    ListPage on m): each page is a window of m, following next links from the
    first page visits every record of m once in ascending order, and a
    previous link leads back to the page a next link came from (and the other
    way round). */
module PagingFacts {
  import opened Wrappers
  import opened ObjectIds
  import opened Routes

  // ---------------------------------------------------------------------------
  // Queries on an ascending store are windows

  /** In an ascending sequence the first identifier is below every later one. */
  lemma {:induction false} HeadBelow(m: seq<Stored>, t: nat)
    requires IdsAscending(m) && 0 < t < |m|
    ensures m[0].id < m[t].id
  {
    if t > 1 {
      HeadBelow(m[1..], t - 1);
    }
  }

  /** When the first identifier is above a, every record is above a. */
  lemma {:induction false} AboveAll(m: seq<Stored>, a: nat)
    requires IdsAscending(m) && (|m| > 0 ==> m[0].id > a)
    ensures Above(m, a) == m
  {
    if |m| > 0 {
      AboveAll(m[1..], a);
      assert m == [m[0]] + m[1..];
    }
  }

  /** When the first identifier is at least b, no record is below b. */
  lemma {:induction false} BelowNone(m: seq<Stored>, b: nat)
    requires IdsAscending(m) && (|m| > 0 ==> m[0].id >= b)
    ensures Below(m, b) == []
  {
    if |m| > 0 {
      BelowNone(m[1..], b);
    }
  }

  /** The records above a cursor are a suffix of an ascending sequence. */
  lemma {:induction false} AboveIsSuffix(m: seq<Stored>, a: nat)
    requires IdsAscending(m)
    ensures Above(m, a) == m[|m| - |Above(m, a)|..]
  {
    if |m| > 0 {
      if m[0].id > a {
        AboveAll(m, a);
      } else {
        AboveIsSuffix(m[1..], a);
      }
    }
  }

  /** The records below a cursor are a prefix of an ascending sequence. */
  lemma {:induction false} BelowIsPrefix(m: seq<Stored>, b: nat)
    requires IdsAscending(m)
    ensures Below(m, b) == m[..|Below(m, b)|]
  {
    if |m| > 0 {
      if m[0].id < b {
        BelowIsPrefix(m[1..], b);
        assert m[..|Below(m, b)|] == [m[0]] + m[1..][..|Below(m[1..], b)|];
      } else {
        BelowNone(m, b);
      }
    }
  }

  /** After the identifier of the record at position t come exactly the records
      past t. */
  lemma {:induction false} AboveMember(m: seq<Stored>, t: nat)
    requires IdsAscending(m) && t < |m|
    ensures Above(m, m[t].id) == m[t + 1..]
  {
    if t == 0 {
      AboveAll(m[1..], m[0].id);
    } else {
      HeadBelow(m, t);
      AboveMember(m[1..], t - 1);
      assert m[1..][t - 1] == m[t];
    }
  }

  /** Before the identifier of the record at position t come exactly the
      records before t. */
  lemma {:induction false} BelowMember(m: seq<Stored>, t: nat)
    requires IdsAscending(m) && t < |m|
    ensures Below(m, m[t].id) == m[..t]
  {
    if t == 0 {
      BelowNone(m, m[0].id);
    } else {
      HeadBelow(m, t);
      BelowMember(m[1..], t - 1);
      assert m[1..][t - 1] == m[t];
      assert m[..t] == [m[0]] + m[1..][..t - 1];
    }
  }

  lemma ScopedAscending(store: seq<Stored>, scope: Scope)
    requires IdsAscending(store)
    ensures IdsAscending(Scoped(store, scope))
  {
    FilterAscending(store, x => InScope(x, scope));
  }

  lemma ConcatSlices(m: seq<Stored>, a: nat, b: nat)
    requires a <= b <= |m|
    ensures m[a..b] + m[b..] == m[a..]
  {
  }

  // ---------------------------------------------------------------------------
  // Pages are windows

  /** The page made of the first `limit` records of w: it links forward to its
      last record when more of w follows, and back to its first record when
      asked to and it has one. */
  function ForwardWindow(w: seq<Stored>, lim: int, linksBack: bool): (p: Page)
    requires 0 < lim
  {
    if |w| > lim then Page(w[..lim], Some(w[lim - 1].id), if linksBack then Some(w[0].id) else None)
    else if |w| > 0 && linksBack then Page(w, None, Some(w[0].id))
    else Page(w, None, None)
  }

  /** The page made of the last `limit` records of w: it links forward to its
      last record when it has one, and back to its first record when more of w
      precedes. */
  function BackwardWindow(w: seq<Stored>, lim: int): (p: Page)
    requires 0 < lim
  {
    if |w| > lim then Page(w[|w| - lim..], Some(w[|w| - 1].id), Some(w[|w| - lim].id))
    else if |w| > 0 then Page(w, Some(w[|w| - 1].id), None)
    else Page(w, None, None)
  }

  /** Paging the records from the start of w, as the first page and the pages
      after a cursor do. */
  lemma PaginateForward(w: seq<Stored>, lim: int, afterGiven: bool)
    requires 0 < lim
    ensures Paginate(Take(w, lim + 1), lim, afterGiven, false) == ForwardWindow(w, lim, afterGiven)
  {
    if |w| > lim {
      assert w[..lim + 1][..lim] == w[..lim];
    }
  }

  /** Paging the records at the end of w, as the pages before a cursor do. */
  lemma PaginateBackward(w: seq<Stored>, lim: int)
    requires 0 < lim
    ensures Paginate(Last(w, lim + 1), lim, false, true) == BackwardWindow(w, lim)
  {
    if |w| > lim {
      assert w[|w| - lim - 1..][1..] == w[|w| - lim..];
    }
  }

  /** Without a cursor, the page is the first `limit` records; it links forward
      exactly when more records follow, and never back. */
  lemma FirstPageIsPrefix(m: seq<Stored>, lim: int)
    requires LimitOk(lim)
    ensures ListPage(m, FromStart, lim) == ForwardWindow(m, lim, false)
  {
    PaginateForward(m, lim, false);
  }

  /** After a cursor, the page is the first `limit` records above it; it links
      back to its first record whenever it has one, and forward exactly when
      more records follow. */
  lemma AfterPageIsWindow(m: seq<Stored>, a: nat, lim: int)
    requires LimitOk(lim)
    ensures ListPage(m, After(a), lim) == ForwardWindow(Above(m, a), lim, true)
  {
    PaginateForward(Above(m, a), lim, true);
  }

  /** Before a cursor, the page is the last `limit` records below it; it links
      forward to its last record whenever it has one, and back exactly when
      more records precede. */
  lemma BeforePageIsWindow(m: seq<Stored>, b: nat, lim: int)
    requires LimitOk(lim)
    ensures ListPage(m, Before(b), lim) == BackwardWindow(Below(m, b), lim)
  {
    PaginateBackward(Below(m, b), lim);
  }

  lemma {:induction false} SliceAscending(w: seq<Stored>, lo: nat, hi: nat)
    requires IdsAscending(w) && lo <= hi <= |w|
    ensures IdsAscending(w[lo..hi])
  {
    AscendingPairs(w);
    var s := w[lo..hi];
    forall i, j | 0 <= i < j < |s|
      ensures s[i].id < s[j].id
    {
      assert s[i] == w[lo + i] && s[j] == w[lo + j];
    }
    PairsAscending(s);
  }

  lemma ForwardWindowAscending(w: seq<Stored>, lim: int, linksBack: bool)
    requires 0 < lim && IdsAscending(w)
    ensures IdsAscending(ForwardWindow(w, lim, linksBack).items)
  {
    if |w| > lim {
      SliceAscending(w, 0, lim);
      assert w[0..lim] == w[..lim];
    }
  }

  lemma BackwardWindowAscending(w: seq<Stored>, lim: int)
    requires 0 < lim && IdsAscending(w)
    ensures IdsAscending(BackwardWindow(w, lim).items)
  {
    if |w| > lim {
      SliceAscending(w, |w| - lim, |w|);
      assert w[|w| - lim..|w|] == w[|w| - lim..];
    }
  }

  /** The records of every page are in ascending identifier order, `before`
      pages included. */
  lemma PageAscending(m: seq<Stored>, c: Cursor, lim: int)
    requires LimitOk(lim) && IdsAscending(m)
    ensures IdsAscending(ListPage(m, c, lim).items)
  {
    match c {
      case FromStart =>
        FirstPageIsPrefix(m, lim);
        ForwardWindowAscending(m, lim, false);
      case After(a) =>
        AfterPageIsWindow(m, a, lim);
        FilterAscending(m, (x: Stored) => x.id > a);
        ForwardWindowAscending(Above(m, a), lim, true);
      case Before(b) =>
        BeforePageIsWindow(m, b, lim);
        FilterAscending(m, (x: Stored) => x.id < b);
        BackwardWindowAscending(Below(m, b), lim);
    }
  }

  /** The page after the identifier of the record at position k is the window
      of the records past k. */
  lemma PageAfterMember(m: seq<Stored>, lim: int, k: nat)
    requires IdsAscending(m) && LimitOk(lim) && k < |m|
    ensures ListPage(m, After(m[k].id), lim) == ForwardWindow(m[k + 1..], lim, true)
  {
    AboveMember(m, k);
    AfterPageIsWindow(m, m[k].id, lim);
  }

  /** The page before the identifier of the record at position k is the window
      of the records before k. */
  lemma PageBeforeMember(m: seq<Stored>, lim: int, k: nat)
    requires IdsAscending(m) && LimitOk(lim) && k < |m|
    ensures ListPage(m, Before(m[k].id), lim) == BackwardWindow(m[..k], lim)
  {
    BelowMember(m, k);
    BeforePageIsWindow(m, m[k].id, lim);
  }

  /** The window past position t: the next `limit` records, and a next link to
      the last of them exactly when more follow. */
  lemma WindowAfter(m: seq<Stored>, lim: int, t: nat)
    requires 0 < lim && t < |m|
    ensures var p := ForwardWindow(m[t + 1..], lim, true);
            (|m| - t - 1 > lim ==> p.items == m[t + 1..t + 1 + lim] && p.next == Some(m[t + lim].id)) &&
            (|m| - t - 1 <= lim ==> p.items == m[t + 1..] && p.next.None?)
  {
    if |m| - t - 1 > lim {
      assert m[t + 1..][..lim] == m[t + 1..t + 1 + lim];
    }
  }

  // ---------------------------------------------------------------------------
  // Following next links

  /** Every cursor a page of the listing hands out is an identifier of the
      store, so its link parses back to it (Routes.FollowLink). */
  lemma LinkIdsInRange(store: seq<Stored>, scope: Scope, c: Cursor, lim: int)
    requires ValidStore(store) && LimitOk(lim)
    ensures var p := ListPage(Scoped(store, scope), c, lim);
            (p.next.Some? ==> p.next.value < IdBound) && (p.prev.Some? ==> p.prev.value < IdBound)
  {
    var m := Scoped(store, scope);
    var p := ListPage(m, c, lim);
    PageBounds(m, c, lim);
    FilterMembers(store, x => InScope(x, scope));
    if p.next.Some? {
      assert p.items[|p.items| - 1] in store;
    }
    if p.prev.Some? {
      assert p.items[0] in store;
    }
  }

  /** How many records remain to be listed from a cursor on. */
  function Remaining(m: seq<Stored>, c: Cursor): nat
  {
    if c.After? then |Above(m, c.id)| else |m| + 1
  }

  /** A page reached forward that has a next link is the `limit` records of m
      from some position s on, and more follow. */
  lemma NextPageAt(m: seq<Stored>, c: Cursor, lim: int) returns (s: nat)
    requires IdsAscending(m) && LimitOk(lim) && !c.Before?
    requires ListPage(m, c, lim).next.Some?
    ensures var p := ListPage(m, c, lim);
            s + lim < |m| && p.items == m[s..s + lim] && p.next == Some(m[s + lim - 1].id) &&
            (c.After? ==> p.prev == Some(m[s].id) && s == |m| - |Above(m, c.id)|) &&
            (c.FromStart? ==> s == 0 && p.prev.None?)
  {
    if c.After? {
      var w := Above(m, c.id);
      AfterPageIsWindow(m, c.id, lim);
      AboveIsSuffix(m, c.id);
      s := |m| - |w|;
      assert w[..lim] == m[s..s + lim];
    } else {
      FirstPageIsPrefix(m, lim);
      s := 0;
    }
  }

  /** After a cursor, the next link leaves fewer records above it. */
  lemma NextAfterAdvances(m: seq<Stored>, a: nat, lim: int)
    requires IdsAscending(m) && LimitOk(lim)
    requires ListPage(m, After(a), lim).next.Some?
    ensures |Above(m, ListPage(m, After(a), lim).next.value)| < |Above(m, a)|
  {
    var s := NextPageAt(m, After(a), lim);
    AboveMember(m, s + lim - 1);
  }

  /** Each next link leaves fewer records to list. */
  lemma NextLinkAdvances(m: seq<Stored>, c: Cursor, lim: int)
    requires IdsAscending(m) && LimitOk(lim)
    requires ListPage(m, c, lim).next.Some?
    ensures Remaining(m, After(ListPage(m, c, lim).next.value)) < Remaining(m, c)
  {
    if c.After? {
      NextAfterAdvances(m, c.id, lim);
    }
  }

  /** The records listed by taking the page for a cursor and then following
      next links until there is none. */
  ghost function Walk(m: seq<Stored>, lim: int, c: Cursor): seq<Stored>
    requires IdsAscending(m) && LimitOk(lim)
    decreases Remaining(m, c), 1
  {
    Continue(m, lim, c, ListPage(m, c, lim))
  }

  /** The records listed from page p, the page for cursor c, on: p's records,
      then the walk from its next link when it has one. */
  ghost function Continue(m: seq<Stored>, lim: int, c: Cursor, p: Page): seq<Stored>
    requires IdsAscending(m) && LimitOk(lim) && p == ListPage(m, c, lim)
    decreases Remaining(m, c), 0
  {
    if p.next.None? then p.items
    else
      NextLinkAdvances(m, c, lim);
      p.items + Walk(m, lim, After(p.next.value))
  }

  /** When more than `limit` records follow position t, the walk from its
      identifier lists the next `limit` records and goes on from the last. */
  lemma WalkStep(m: seq<Stored>, lim: int, t: nat)
    requires IdsAscending(m) && LimitOk(lim) && t + lim + 1 < |m|
    ensures Walk(m, lim, After(m[t].id)) == m[t + 1..t + lim + 1] + Walk(m, lim, After(m[t + lim].id))
  {
    PageAfterMember(m, lim, t);
    WindowAfter(m, lim, t);
  }

  /** When at most `limit` records follow position t, the walk from its
      identifier lists them and stops. */
  lemma WalkLastStep(m: seq<Stored>, lim: int, t: nat)
    requires IdsAscending(m) && LimitOk(lim) && t < |m| <= t + lim + 1
    ensures Walk(m, lim, After(m[t].id)) == m[t + 1..]
  {
    PageAfterMember(m, lim, t);
    WindowAfter(m, lim, t);
  }

  /** Following next links from the identifier of the record at position t
      lists exactly the records past t. */
  lemma {:induction false} WalkAfterMember(m: seq<Stored>, lim: int, t: nat)
    requires IdsAscending(m) && LimitOk(lim) && t < |m|
    ensures Walk(m, lim, After(m[t].id)) == m[t + 1..]
    decreases |m| - t
  {
    if |m| - t - 1 > lim {
      var rest := Walk(m, lim, After(m[t + lim].id));
      assert rest == m[t + lim + 1..] by {
        WalkAfterMember(m, lim, t + lim);
      }
      assert Walk(m, lim, After(m[t].id)) == m[t + 1..t + lim + 1] + rest by {
        WalkStep(m, lim, t);
      }
      ConcatSlices(m, t + 1, t + lim + 1);
    } else {
      WalkLastStep(m, lim, t);
    }
  }

  /** Following next links from the first page lists every record the scope
      may list, each once, in ascending identifier order. */
  lemma WalkListsEverything(m: seq<Stored>, lim: int)
    requires IdsAscending(m) && LimitOk(lim)
    ensures Walk(m, lim, FromStart) == m
  {
    FirstPageIsPrefix(m, lim);
    if |m| > lim {
      WalkAfterMember(m, lim, lim - 1);
      ConcatSlices(m, 0, lim);
    }
  }

  // ---------------------------------------------------------------------------
  // Next and previous links are inverse

  /** A page reached backward that has a previous link is the `limit` records
      of m from some position k > 0 on. */
  lemma PrevPageAt(m: seq<Stored>, b: nat, lim: int) returns (k: nat)
    requires IdsAscending(m) && LimitOk(lim)
    requires ListPage(m, Before(b), lim).prev.Some?
    ensures var p := ListPage(m, Before(b), lim);
            0 < k && k + lim <= |m| && p.items == m[k..k + lim] && p.prev == Some(m[k].id) &&
            p.next == Some(m[k + lim - 1].id)
  {
    BeforePageIsWindow(m, b, lim);
    BelowIsPrefix(m, b);
    k := FullBackwardWindow(m, Below(m, b), lim);
  }

  /** A backward window of a prefix of m that links back holds m's `lim`
      records just before the prefix ends, and links both ways. */
  lemma FullBackwardWindow(m: seq<Stored>, w: seq<Stored>, lim: int) returns (k: nat)
    requires 0 < lim && |w| <= |m| && w == m[..|w|] && BackwardWindow(w, lim).prev.Some?
    ensures 0 < k && k + lim == |w|
    ensures BackwardWindow(w, lim) == Page(m[k..k + lim], Some(m[k + lim - 1].id), Some(m[k].id))
  {
    k := |w| - lim;
    assert w[k..] == m[k..k + lim];
  }

  /** Going forward from the window ending at position k - 1 and back again
      gives the same records and the same next link. */
  lemma BackFromAfterPage(m: seq<Stored>, s: nat, lim: int)
    requires 0 < lim && s + lim < |m|
    ensures var k := s + lim;
            ForwardWindow(m[k..], lim, true).prev == Some(m[k].id) &&
            BackwardWindow(m[..k], lim).items == m[s..k] &&
            BackwardWindow(m[..k], lim).next == Some(m[k - 1].id) &&
            BackwardWindow(m[..k], lim).prev == if s == 0 then None else Some(m[s].id)
  {
    var k := s + lim;
    assert m[..k][|m[..k]| - lim..] == m[s..k];
  }

  /** Going back from the window starting at position k and forward again
      gives the same records and the same previous link. */
  lemma ForwardFromBeforePage(m: seq<Stored>, k: nat, lim: int)
    requires 0 < lim && 0 < k && k + lim <= |m|
    ensures BackwardWindow(m[..k], lim).next == Some(m[k - 1].id)
    ensures ForwardWindow(m[k..], lim, true).items == m[k..k + lim]
    ensures ForwardWindow(m[k..], lim, true).prev == Some(m[k].id)
    ensures k + lim < |m| ==> ForwardWindow(m[k..], lim, true).next == Some(m[k + lim - 1].id)
  {
    assert m[k..][..lim] == m[k..k + lim];
    if |m| - k == lim {
      assert m[k..] == m[k..k + lim];
    }
  }

  /** The pages on either side of the boundary between positions k - 1 and
      k: after the record at k - 1 come the records from k on, and before the
      record at k the records up to k - 1. */
  lemma AdjacentPages(m: seq<Stored>, lim: int, k: nat)
    requires IdsAscending(m) && LimitOk(lim) && 0 < k < |m|
    ensures ListPage(m, After(m[k - 1].id), lim) == ForwardWindow(m[k..], lim, true)
    ensures ListPage(m, Before(m[k].id), lim) == BackwardWindow(m[..k], lim)
  {
    assert ListPage(m, After(m[k - 1].id), lim) == ForwardWindow(m[k..], lim, true) by {
      var j: nat := k - 1;
      PageAfterMember(m, lim, j);
      assert m[j + 1..] == m[k..];
    }
    assert ListPage(m, Before(m[k].id), lim) == BackwardWindow(m[..k], lim) by {
      PageBeforeMember(m, lim, k);
    }
  }

  /** Going back from the second page gives the first page. */
  lemma FirstWindowBack(m: seq<Stored>, lim: int)
    requires 0 < lim < |m|
    ensures BackwardWindow(m[..lim], lim) == ForwardWindow(m, lim, false)
  {
  }

  /** Going forward from the page at positions s .. s + lim - 1 and back
      again gives a page with the same records and the same next link. */
  lemma BackAgain(m: seq<Stored>, lim: int, s: nat)
    requires IdsAscending(m) && LimitOk(lim) && s + lim < |m|
    ensures var k := s + lim;
            ListPage(m, After(m[k - 1].id), lim).prev == Some(m[k].id) &&
            ListPage(m, Before(m[k].id), lim).items == m[s..k] &&
            ListPage(m, Before(m[k].id), lim).next == Some(m[k - 1].id)
  {
    AdjacentPages(m, lim, s + lim);
    BackFromAfterPage(m, s, lim);
  }

  /** From a page with a next link (the first page, or a page after a cursor),
      the next page links back, and its previous link leads to a page with the
      same records and the same next link. It is the page itself unless the
      page was reached with an `after` cursor below every listed identifier:
      such a page links back, while the page reached back does not. */
  lemma PrevOfNextIsSamePage(m: seq<Stored>, c: Cursor, lim: int)
    requires IdsAscending(m) && LimitOk(lim) && !c.Before?
    requires ListPage(m, c, lim).next.Some?
    ensures var p := ListPage(m, c, lim);
            var q := ListPage(m, After(p.next.value), lim);
            q.prev.Some? &&
            (var back := ListPage(m, Before(q.prev.value), lim);
             && back.items == p.items && back.next == p.next
             && ((c.FromStart? || |Above(m, c.id)| < |m|) ==> back == p))
  {
    var s := NextPageAt(m, c, lim);
    BackAgain(m, lim, s);
    if c.FromStart? {
      SecondPageBack(m, lim);
    } else {
      BackFromAfterPage(m, s, lim);
      AdjacentPages(m, lim, s + lim);
    }
  }

  /** Going back from the second page gives the first page itself. */
  lemma SecondPageBack(m: seq<Stored>, lim: int)
    requires IdsAscending(m) && LimitOk(lim) && lim < |m|
    ensures ListPage(m, Before(m[lim].id), lim) == ListPage(m, FromStart, lim)
  {
    AdjacentPages(m, lim, lim);
    FirstPageIsPrefix(m, lim);
    FirstWindowBack(m, lim);
  }

  /** From a page before a cursor with a previous link, the previous page links
      forward, and its next link leads to a page with the same records and the
      same previous link. It is the page itself unless no listed record follows
      the page: a page reached with `before` links forward, while the page
      reached forward does not. */
  lemma NextOfPrevIsSamePage(m: seq<Stored>, b: nat, lim: int)
    requires IdsAscending(m) && LimitOk(lim)
    requires ListPage(m, Before(b), lim).prev.Some?
    ensures var p := ListPage(m, Before(b), lim);
            var q := ListPage(m, Before(p.prev.value), lim);
            q.next.Some? &&
            (var forward := ListPage(m, After(q.next.value), lim);
             && forward.items == p.items && forward.prev == p.prev
             && (p.next.Some? && |Above(m, p.next.value)| > 0 ==> forward == p))
  {
    var k := PrevPageAt(m, b, lim);
    AdjacentPages(m, lim, k);
    ForwardFromBeforePage(m, k, lim);
    AboveMember(m, k + lim - 1);
  }
}
