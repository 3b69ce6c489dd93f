/**
 What the verification sees of a chain that it reads by pages.  A page is asked for by the sequence of the
 last event of the page before, so an event that carries an older sequence is passed over.
 */
module AuditPages {
  import opened Options
  import opened AuditChain

  /** The events after a position, in the order of the chain. */
  function After(chain: seq<AuditEvent>, position: Option<int>): seq<AuditEvent> {
    if chain == [] then []
    else
      (if position.None? || chain[0].body.sequence > position.value then [chain[0]] else [])
      + After(chain[1..], position)
  }

  function Page(chain: seq<AuditEvent>, position: Option<int>, limit: nat): seq<AuditEvent> {
    var rows := After(chain, position);
    if |rows| <= limit then rows else rows[..limit]
  }

  lemma {:induction false} NothingAfter(chain: seq<AuditEvent>, s: int)
    requires forall e | e in chain :: e.body.sequence <= s
    ensures After(chain, Some(s)) == []
  {
    if chain != [] {
      assert chain[0] in chain;
      NothingAfter(chain[1..], s);
    }
  }

  lemma {:induction false} EverythingAfter(chain: seq<AuditEvent>, position: Option<int>)
    requires position.Some? ==> forall e | e in chain :: e.body.sequence > position.value
    ensures After(chain, position) == chain
  {
    if chain != [] {
      assert chain[0] in chain;
      EverythingAfter(chain[1..], position);
    }
  }

  /** In increasing order, the events after the one at `n - 1` are those from `n` on. */
  lemma {:induction false} AfterIsSuffix(chain: seq<AuditEvent>, n: nat, s: int)
    requires Increasing(chain) && n <= |chain|
    requires forall i | 0 <= i < n :: chain[i].body.sequence <= s
    requires forall i | n <= i < |chain| :: chain[i].body.sequence > s
    ensures After(chain, Some(s)) == chain[n..]
  {
    if n == 0 {
      EverythingAfter(chain, Some(s));
    } else {
      var rest := chain[1..];
      assert forall i | 0 <= i < |rest| :: rest[i] == chain[i + 1];
      AfterIsSuffix(rest, n - 1, s);
      assert rest[n - 1..] == chain[n..];
    }
  }

  lemma PageOf(chain: seq<AuditEvent>, position: Option<int>, limit: nat)
    ensures var rows := After(chain, position);
            Page(chain, position, limit) == if |rows| <= limit then rows else rows[..limit]
  {
  }

  lemma PageIsSlice(chain: seq<AuditEvent>, position: Option<int>, limit: nat, n: nat)
    requires n <= |chain| && After(chain, position) == chain[n..]
    ensures var page := Page(chain, position, limit);
            && n + |page| <= |chain| && page == chain[n..n + |page|]
            && (|page| < limit ==> n + |page| == |chain|) && |page| <= limit
            && (limit > 0 && n < |chain| ==> |page| > 0)
  {
  }

  lemma AfterFirst(chain: seq<AuditEvent>, s: int)
    ensures After(chain, Some(s))
            == if chain == [] then []
               else (if chain[0].body.sequence > s then [chain[0]] else []) + After(chain[1..], Some(s))
  {
  }

  lemma {:induction false} AfterBoth(a: seq<AuditEvent>, b: seq<AuditEvent>, s: int)
    ensures After(a + b, Some(s)) == After(a, Some(s)) + After(b, Some(s))
  {
    hide After;
    AfterFirst(a, s);
    if a == [] {
      assert a + b == b;
    } else {
      AfterFirst(a + b, s);
      assert (a + b)[1..] == a[1..] + b;
      AfterBoth(a[1..], b, s);
      var first := if a[0].body.sequence > s then [a[0]] else [];
      assert first + (After(a[1..], Some(s)) + After(b, Some(s))) == first + After(a[1..], Some(s)) + After(b, Some(s));
    }
  }

  lemma {:induction false} AfterTwice(chain: seq<AuditEvent>, position: Option<int>, s: int)
    requires position.Some? ==> position.value <= s
    ensures After(After(chain, position), Some(s)) == After(chain, Some(s))
  {
    if chain != [] {
      var first := After(chain, position);
      var rest := After(chain[1..], position);
      AfterTwice(chain[1..], position, s);
      if position.None? || chain[0].body.sequence > position.value {
        assert first[0] == chain[0] && first[1..] == rest;
      } else {
        assert first == rest;
      }
    }
  }

  lemma {:induction false} AfterShrinks(chain: seq<AuditEvent>, s: int)
    ensures |After(chain, Some(s))| <= |chain|
  {
    if chain != [] { AfterShrinks(chain[1..], s); }
  }

  // ---- what the pages show --------------------------------------------------------------------------------

  /** Of the rows left after `seen` events, page by page: once a page is full, only the rows with a sequence
      past its end are read. */
  function Shown(rows: seq<AuditEvent>, pageSize: nat, seen: nat): seq<AuditEvent>
    requires pageSize >= 1
    decreases |rows|
  {
    if |rows| < pageSize then rows
    else
      AfterShrinks(rows[pageSize..], seen + pageSize);
      rows[..pageSize] + Shown(After(rows[pageSize..], Some(seen + pageSize)), pageSize, seen + pageSize)
  }

  /** These are the rows a walk finds left after `seen` events. */
  predicate Reached(chain: seq<AuditEvent>, rows: seq<AuditEvent>, seen: nat) {
    rows == chain || rows == After(chain, Some(seen))
  }

  /** The page read next is what is shown next. */
  lemma PageShown(rows: seq<AuditEvent>, pageSize: nat, seen: nat)
    requires pageSize >= 1
    ensures var page := if |rows| <= pageSize then rows else rows[..pageSize];
            var shown := Shown(rows, pageSize, seen);
            && page <= shown
            && (|page| < pageSize ==> page == shown)
            && (|page| == pageSize ==>
                  shown[pageSize..] == Shown(After(rows[pageSize..], Some(seen + pageSize)), pageSize, seen + pageSize))
  {
    hide After;
  }

  lemma OnePageShown(rows: seq<AuditEvent>, pageSize: nat, seen: nat)
    requires pageSize >= 1
    ensures Shown(rows, pageSize, seen)
            == if |rows| < pageSize then rows
               else rows[..pageSize] + Shown(After(rows[pageSize..], Some(seen + pageSize)), pageSize, seen + pageSize)
  {
    hide After;
  }

  /** The rows after a page whose events were numbered on. */
  lemma RowsAfterPage(chain: seq<AuditEvent>, rows: seq<AuditEvent>, seen: nat, pageSize: nat)
    requires pageSize <= |rows| && Reached(chain, rows, seen)
    requires forall i | 0 <= i < pageSize :: rows[i].body.sequence == seen + i + 1
    ensures After(chain, Some(seen + pageSize)) == After(rows[pageSize..], Some(seen + pageSize))
    ensures Reached(chain, After(rows[pageSize..], Some(seen + pageSize)), seen + pageSize)
  {
    hide After;
    var s := seen + pageSize;
    var page := rows[..pageSize];
    if rows != chain { AfterTwice(chain, Some(seen), s); }
    NothingAfter(page, s);
    AfterBoth(page, rows[pageSize..], s);
    assert page + rows[pageSize..] == rows;
    assert [] + After(rows[pageSize..], Some(s)) == After(rows[pageSize..], Some(s));
  }

  /** Sequences that keep ahead of the places hide nothing. */
  lemma {:induction false} AllShown(rows: seq<AuditEvent>, pageSize: nat, seen: nat)
    requires pageSize >= 1 && forall i | 0 <= i < |rows| :: rows[i].body.sequence > seen + i
    ensures Shown(rows, pageSize, seen) == rows
    decreases |rows|
  {
    hide After, Shown;
    OnePageShown(rows, pageSize, seen);
    if |rows| >= pageSize {
      var rest := rows[pageSize..];
      forall i | 0 <= i < |rest| ensures rest[i].body.sequence > seen + pageSize
        + i { assert rest[i] == rows[pageSize + i]; }
      EverythingAfter(rest, Some(seen + pageSize));
      AllShown(rest, pageSize, seen + pageSize);
      assert rows[..pageSize] + rest == rows;
    }
  }

  lemma LinkedIsShown(h: Hash, chain: seq<AuditEvent>, pageSize: nat)
    requires pageSize >= 1 && Linked(h, chain)
    ensures Shown(chain, pageSize, 0) == chain
  {
    hide Shown;
    forall i | 0 <= i < |chain| ensures chain[i].body.sequence > i { assert Link(h, chain, i); }
    AllShown(chain, pageSize, 0);
  }

  // ---- an event out of its place ----------------------------------------------------------------------------

  /** How many places the full pages before place `n` cover. */
  function PageStart(n: nat, pageSize: nat): nat
    requires pageSize >= 1
  {
    if n < pageSize then 0 else pageSize + PageStart(n - pageSize, pageSize)
  }

  lemma {:induction false} PageStartIsFloor(n: nat, pageSize: nat)
    requires pageSize >= 1
    ensures PageStart(n, pageSize) == n / pageSize * pageSize
  {
    if n >= pageSize {
      PageStartIsFloor(n - pageSize, pageSize);
      var q := (n - pageSize) / pageSize;
      Quotient(n, pageSize, q + 1, (n - pageSize) % pageSize);
    } else {
      Quotient(n, pageSize, 0, n);
    }
  }

  lemma Quotient(n: nat, d: nat, q: nat, r: nat)
    requires d >= 1 && r < d && n == q * d + r
    ensures n / d == q
  {
    var p := n / d;
    assert n == p * d + n % d;
    if p < q {
      Product(q - p, d);
    } else if p > q {
      Product(p - q, d);
    }
  }

  lemma Product(a: nat, d: nat)
    requires a >= 1
    ensures a * d >= d
  {
  }

  /** At place `n` this sequence is older than the page it would be read on. */
  predicate Stale(sequence: int, n: nat, pageSize: nat)
    requires pageSize >= 1
  {
    n >= pageSize && sequence <= PageStart(n, pageSize)
  }

  predicate NumberedOn(rows: seq<AuditEvent>, seen: nat) {
    forall i | 0 <= i < |rows| :: rows[i].body.sequence == seen + i + 1
  }

  /** What becomes of one event behind a well numbered stretch: shown in its place, or passed over as if it
      were not there. */
  lemma {:induction false} OneInside(a: seq<AuditEvent>, x: AuditEvent, b: seq<AuditEvent>, pageSize: nat, seen: nat)
    requires pageSize >= 1 && NumberedOn(a, seen)
    ensures var shown := Shown(a + [x] + b, pageSize, seen);
            if Stale(x.body.sequence - seen, |a|, pageSize) then shown == Shown(a + b, pageSize, seen)
            else a + [x] <= shown
    decreases |a|
  {
    hide After, Shown;
    var rows, less := a + [x] + b, a + b;
    OnePageShown(rows, pageSize, seen);
    OnePageShown(less, pageSize, seen);
    if |a| >= pageSize {
      var s := seen + pageSize;
      var a', b' := a[pageSize..], After(b, Some(s));
      assert rows[..pageSize] == a[..pageSize] == less[..pageSize];
      RowsBehind(a, x, b, pageSize, seen);
      if x.body.sequence > s {
        assert NumberedOn(a', s) by { assert forall i | 0 <= i < |a'| :: a'[i] == a[pageSize + i]; }
        OneInside(a', x, b', pageSize, s);
        assert a == a[..pageSize] + a';
        assert PageStart(|a|, pageSize) == pageSize + PageStart(|a'|, pageSize);
        if Stale(x.body.sequence - seen, |a|, pageSize) {
          assert Stale(x.body.sequence - s, |a'|, pageSize);
          assert Shown(rows, pageSize, seen) == Shown(less, pageSize, seen);
        }
      }
    } else if |rows| >= pageSize {
      assert rows[..pageSize] == a + ([x] + b)[..pageSize - |a|];
    }
  }

  lemma RowsBehind(a: seq<AuditEvent>, x: AuditEvent, b: seq<AuditEvent>, pageSize: nat, seen: nat)
    requires pageSize <= |a| && NumberedOn(a, seen)
    ensures var s := seen + pageSize;
            var a', b' := a[pageSize..], After(b, Some(s));
            && After((a + b)[pageSize..], Some(s)) == a' + b'
            && After((a + [x] + b)[pageSize..], Some(s)) == if x.body.sequence > s then a' + [x] + b' else a' + b'
  {
    hide After;
    var s := seen + pageSize;
    var a', b' := a[pageSize..], After(b, Some(s));
    assert (a + [x] + b)[pageSize..] == a' + ([x] + b) && (a + b)[pageSize..] == a' + b;
    forall e | e in a' ensures e.body.sequence > s {
      var i :| 0 <= i < |a'| && a'[i] == e;
      assert a[pageSize + i] == e;
    }
    EverythingAfter(a', Some(s));
    AfterBoth(a', [x] + b, s);
    AfterBoth(a', b, s);
    AfterBoth([x], b, s);
    AfterOne(x, s);
    assert a' + ([x] + b') == a' + [x] + b' && [] + b' == b';
  }

  lemma AfterOne(x: AuditEvent, s: int)
    ensures After([x], Some(s)) == if x.body.sequence > s then [x] else []
  {
    assert [x][1..] == [];
  }

  lemma {:induction false} AfterIsLater(chain: seq<AuditEvent>, s: int)
    ensures forall e | e in After(chain, Some(s)) :: e.body.sequence > s
  {
    if chain != [] { AfterIsLater(chain[1..], s); }
  }

  /** Nothing shown is stale where it is shown. */
  lemma {:induction false} NothingStaleShown(rows: seq<AuditEvent>, pageSize: nat, seen: nat, i: nat)
    requires pageSize >= 1 && i < |Shown(rows, pageSize, seen)|
    ensures !Stale(Shown(rows, pageSize, seen)[i].body.sequence - seen, i, pageSize)
    decreases i
  {
    hide After, Shown;
    OnePageShown(rows, pageSize, seen);
    if i >= pageSize {
      var s := seen + pageSize;
      var rest := After(rows[pageSize..], Some(s));
      AfterIsLater(rows[pageSize..], s);
      OnePageShown(rest, pageSize, s);
      var k := i - pageSize;
      var e := Shown(rest, pageSize, s)[k];
      assert Shown(rows, pageSize, seen)[i] == e;
      NothingStaleShown(rest, pageSize, s, k);
      assert PageStart(i, pageSize) == pageSize + PageStart(k, pageSize);
      if k < pageSize {
        assert e == rest[k] && e in rest;
      } else {
        assert !Stale(e.body.sequence - s, k, pageSize);
      }
    }
  }

  // ---- tampering, read by pages -------------------------------------------------------------------------------

  /** A walk over this list breaks at `x`, which hangs on the intact events before it in no way. */
  lemma BreaksAt(h: Hash, c: seq<AuditEvent>, k: nat, x: AuditEvent, shown: seq<AuditEvent>, v: Verdict)
    requires Linked(h, c) && k <= |c| && c[..k] + [x] <= shown && Answers(h, shown, v)
    requires CheckLink(h, x, k + 1, HashBefore(c, k)).Some?
    ensures !v.valid && v.checked == k && v.firstBroken == Some(x.body.sequence)
    ensures v.reason == CheckLink(h, x, k + 1, HashBefore(c, k))
  {
    assert shown[..k] == c[..k] && shown[k] == x;
    forall i: nat | i < k ensures Link(h, shown, i) {
      PrefixLinks(h, c, k, i);
      PrefixLinks(h, shown, k, i);
      assert Link(h, c, i);
    }
    assert HashBefore(shown, k) == HashBefore(c, k) by {
      if k > 0 { assert shown[..k][k - 1] == c[..k][k - 1]; }
    }
    assert !Link(h, shown, k);
  }

  /** The walk by pages answers as one walk over the whole list does, if and only if that one finds nothing, or
      finds an event that is not too old for its page. */
  lemma PagesAsOneWalk(h: Hash, c: seq<AuditEvent>, pageSize: nat, v: Verdict, w: Verdict)
    requires pageSize >= 1 && Answers(h, Shown(c, pageSize, 0), v) && Answers(h, c, w)
    ensures v == w <==> w.valid || !Stale(c[w.checked].body.sequence, w.checked, pageSize)
  {
    hide Shown, GenesisHash;
    if w.valid {
      LinkedIsShown(h, c, pageSize);
      OnlyOneAnswer(h, c, v, w);
    } else {
      var n, shown := w.checked, Shown(c, pageSize, 0);
      var a, x, b := c[..n], c[n], c[n + 1..];
      assert c == a + [x] + b;
      forall i | 0 <= i < n ensures a[i].body.sequence == i + 1 { assert Link(h, c, i); }
      OneInside(a, x, b, pageSize, 0);
      if Stale(x.body.sequence, n, pageSize) {
        if v == w { NothingStaleShown(c, pageSize, 0, n); }
      } else {
        PrefixAgrees(h, c, n, w);
        assert HashBefore(a, n) == HashBefore(c, n);
        BreaksAt(h, a, n, x, shown, v);
      }
    }
  }

  /** What was done to the past of an event that is shown is reported there at the latest, if it shows. */
  lemma ShownPastIsChecked(h: Hash, c: seq<AuditEvent>, shown: seq<AuditEvent>, i: nat, j: nat, v: Verdict)
    requires CollisionFree(h) && Linked(h, c) && Answers(h, shown, v)
    requires i < |c| && j < |shown| && shown[j] == c[i]
    ensures v.checked > j <==> shown[..j] == c[..i]
  {
    var e := shown[..j + 1];
    assert e[j] == shown[j] && c[..i + 1][..i] == c[..i] && e[..j + 1] == e && e[..j] == shown[..j];
    if v.checked > j {
      PrefixAgrees(h, shown, j + 1, v);
      SharedHashSharesThePast(h, c, e, i, j);
      assert e[..j] == c[..i + 1][..i];
    }
    if shown[..j] == c[..i] && v.checked <= j {
      var n := v.checked;
      assert |shown[..j]| == j == i && e == c[..i + 1];
      PrefixLinks(h, shown, j + 1, n);
      PrefixLinks(h, c, i + 1, n);
    }
  }

  /** The same for the list in the store: the walk by pages reports the departure where one walk does, between
      the first departing event and the surviving one, if and only if what breaks there is not too old for its
      page. */
  lemma TamperedPast(h: Hash, c: seq<AuditEvent>, d: seq<AuditEvent>, i: nat, j: nat, k: nat, pageSize: nat, v: Verdict,
                     w: Verdict)
    requires CollisionFree(h) && Linked(h, c) && pageSize >= 1
    requires i < |c| && j < |d| && d[j] == c[i] && d[..j] != c[..i]
    requires k <= |c| && k <= |d| && c[..k] == d[..k]
    requires Answers(h, Shown(d, pageSize, 0), v) && Answers(h, d, w)
    ensures !w.valid && k <= w.checked <= j
    ensures v == w <==> !Stale(d[w.checked].body.sequence, w.checked, pageSize)
  {
    TamperedPastIsReported(h, c, d, i, j, k, w);
    PagesAsOneWalk(h, d, pageSize, v, w);
  }

  lemma RemovedIsShown(h: Hash, c: seq<AuditEvent>, k: nat, pageSize: nat)
    requires Linked(h, c) && k < |c| && pageSize >= 1
    ensures Shown(c[..k] + c[k + 1..], pageSize, 0) == c[..k] + c[k + 1..]
  {
    hide Shown;
    var d := c[..k] + c[k + 1..];
    forall i | 0 <= i < |d| ensures d[i].body.sequence > i { assert Link(h, c, if i < k then i else i + 1); }
    AllShown(d, pageSize, 0);
  }

  /** One event removed, read by pages of any size: unnoticed exactly when it was the last; otherwise its
      successor is reported, as a gap. */
  lemma Removed(h: Hash, c: seq<AuditEvent>, k: nat, pageSize: nat, v: Verdict)
    requires Linked(h, c) && k < |c| && pageSize >= 1
    requires Answers(h, Shown(c[..k] + c[k + 1..], pageSize, 0), v)
    ensures v.valid <==> k == |c| - 1
    ensures !v.valid ==> v.checked == k && v.firstBroken == Some(k + 2) && v.reason == Some(SequenceGap)
  {
    RemovedIsShown(h, c, k, pageSize);
    RemovedEvent(h, c, k, v);
  }

  lemma NumberedPrefix(h: Hash, c: seq<AuditEvent>, k: nat)
    requires Linked(h, c) && k <= |c|
    ensures NumberedOn(c[..k], 0)
  {
    forall i | 0 <= i < k ensures c[..k][i].body.sequence == i + 1 { assert Link(h, c, i); }
  }

  /** One event altered in place, read by pages: unnoticed exactly when it is the last one and either its hash
      was recomputed or its new sequence is too old for its page, and then no hash matters; otherwise the
      walk stops on it, or on the next one when its hash was recomputed. */
  lemma Altered(h: Hash, c: seq<AuditEvent>, k: nat, x: AuditEvent, pageSize: nat, v: Verdict)
    requires CollisionFree(h) && Linked(h, c) && k < |c| && x != c[k] && pageSize >= 1
    requires Answers(h, Shown(c[k := x], pageSize, 0), v)
    ensures var forged := CheckLink(h, x, k + 1, HashBefore(c, k)).None?;
            && (v.valid <==> k == |c| - 1 && (forged || Stale(x.body.sequence, k, pageSize)))
            && (!v.valid ==> v.checked == if forged then k + 1 else k)
  {
    hide Shown, Answers, Linked;
    var d, a, b := c[k := x], c[..k], c[k + 1..];
    assert d == a + [x] + b;
    NumberedPrefix(h, c, k);
    OneInside(a, x, b, pageSize, 0);
    if CheckLink(h, x, k + 1, HashBefore(c, k)).None? {
      ForgedIsShown(h, c, k, x, pageSize);
      AlteredEvent(h, c, k, x, v);
      ForgedIsFresh(k, pageSize);
    } else if Stale(x.body.sequence, k, pageSize) {
      Removed(h, c, k, pageSize, v);
    } else {
      BreaksAt(h, c, k, x, Shown(d, pageSize, 0), v);
    }
  }

  lemma ForgedIsShown(h: Hash, c: seq<AuditEvent>, k: nat, x: AuditEvent, pageSize: nat)
    requires Linked(h, c) && k < |c| && x.body.sequence == k + 1 && pageSize >= 1
    ensures Shown(c[k := x], pageSize, 0) == c[k := x]
  {
    hide Shown;
    var d := c[k := x];
    forall i | 0 <= i < |d| ensures d[i].body.sequence > i { assert Link(h, c, i); }
    AllShown(d, pageSize, 0);
  }

  lemma {:induction false} ForgedIsFresh(k: nat, pageSize: nat)
    requires pageSize >= 1
    ensures PageStart(k, pageSize) <= k && !Stale(k + 1, k, pageSize)
  {
    if k >= pageSize { ForgedIsFresh(k - pageSize, pageSize); }
  }

  /** One event inserted, or put behind the last one, and read by pages.  Too old for its page it is passed over,
      and the chain verifies in full.  With a fitting hash it hides the event it displaced when it ends a
      page, which goes unnoticed if that one was its double or the last.  Otherwise it is reported on itself,
      or, with a fitting hash, on the event it displaced. */
  lemma Inserted(h: Hash, c: seq<AuditEvent>, k: nat, x: AuditEvent, pageSize: nat, v: Verdict)
    requires CollisionFree(h) && Linked(h, c) && k <= |c| && pageSize >= 1
    requires Answers(h, Shown(c[..k] + [x] + c[k..], pageSize, 0), v)
    ensures var forged := CheckLink(h, x, k + 1, HashBefore(c, k)).None?;
            var stale, endsPage := Stale(x.body.sequence, k, pageSize), PageStart(k + 1, pageSize) == k + 1;
            && (v.valid <==> stale || (forged && (k == |c| || (endsPage && (x == c[k] || k == |c| - 1)))))
            && (stale ==> v.checked == |c|)
            && (!v.valid ==> v.checked == if forged then k + 1 else k)
  {
    hide Shown, Answers, Linked, GenesisHash;
    var d, a, b := c[..k] + [x] + c[k..], c[..k], c[k..];
    assert a + b == c;
    NumberedPrefix(h, c, k);
    OneInside(a, x, b, pageSize, 0);
    ForgedIsFresh(k, pageSize);
    if Stale(x.body.sequence, k, pageSize) {
      LinkedIsShown(h, c, pageSize);
      LinkedAnswer(h, c, v);
    } else if CheckLink(h, x, k + 1, HashBefore(c, k)).Some? {
      BreaksAt(h, c, k, x, Shown(d, pageSize, 0), v);
    } else {
      LinkedPrefix(h, c, k);
      assert HashBefore(a, |a|) == HashBefore(c, k);
      OneMoreLink(h, a, x);
      if k == |c| {
        assert d == a + [x];
        LinkedIsShown(h, d, pageSize);
        LinkedAnswer(h, d, v);
      } else {
        Doubled(h, c, k, x, pageSize, v);
      }
    }
  }

  lemma LinkedPrefix(h: Hash, c: seq<AuditEvent>, k: nat)
    requires Linked(h, c) && k <= |c|
    ensures Linked(h, c[..k])
  {
    forall i: nat | i < k ensures Link(h, c[..k], i) {
      PrefixLinks(h, c, k, i);
      assert Link(h, c, i);
    }
  }

  lemma LinkedAnswer(h: Hash, c: seq<AuditEvent>, v: Verdict)
    requires Linked(h, c) && Answers(h, c, v)
    ensures v.valid && v.checked == |c|
  {
  }

  /** Two events for one place, the first of which fits. */
  lemma Doubled(h: Hash, c: seq<AuditEvent>, k: nat, x: AuditEvent, pageSize: nat, v: Verdict)
    requires CollisionFree(h) && Linked(h, c) && k < |c| && pageSize >= 1
    requires CheckLink(h, x, k + 1, HashBefore(c, k)).None? && Linked(h, c[..k] + [x])
    requires Answers(h, Shown(c[..k] + [x] + c[k..], pageSize, 0), v)
    ensures v.valid <==> PageStart(k + 1, pageSize) == k + 1 && (x == c[k] || k == |c| - 1)
    ensures !v.valid ==> v.checked == k + 1
  {
    hide Shown, Answers, Linked, GenesisHash;
    var d, a, y, b := c[..k] + [x] + c[k..], c[..k] + [x], c[k], c[k + 1..];
    assert d == a + [y] + b && a + b == c[k := x];
    NumberedPrefix(h, a, k + 1);
    assert a[..k + 1] == a;
    NumberedPrefix(h, c, k + 1);
    assert c[..k + 1][k] == y;
    OneInside(a, y, b, pageSize, 0);
    EndOfPage(k + 1, pageSize);
    if PageStart(k + 1, pageSize) == k + 1 {
      if x == y {
        assert c[k := x] == c;
        LinkedIsShown(h, c, pageSize);
        LinkedAnswer(h, c, v);
      } else {
        Altered(h, c, k, x, pageSize, v);
      }
    } else {
      BreaksAt(h, a, k + 1, y, Shown(d, pageSize, 0), v);
    }
  }

  lemma {:induction false} EndOfPage(n: nat, pageSize: nat)
    requires pageSize >= 1
    ensures PageStart(n, pageSize) <= n
    ensures n >= 1 ==> (Stale(n, n, pageSize) <==> PageStart(n, pageSize) == n)
  {
    ForgedIsFresh(n, pageSize);
  }

  /** For instance a copy of the first event put behind a full page: the chain verifies, with everything but
      the copy checked. */
  lemma CopyUnnoticed(h: Hash, c: seq<AuditEvent>, pageSize: nat, v: Verdict)
    requires CollisionFree(h) && Linked(h, c) && 1 <= pageSize <= |c|
    requires Answers(h, Shown(c[..pageSize] + [c[0]] + c[pageSize..], pageSize, 0), v)
    ensures v == Verdict(true, |c|, None, None)
  {
    assert Link(h, c, 0);
    assert PageStart(pageSize, pageSize) == pageSize;
    Inserted(h, c, pageSize, c[0], pageSize, v);
  }

  /** And an event forged for the only place of a chain read by pages of one. */
  lemma DoubleUnnoticed(h: Hash, e: AuditEvent, x: AuditEvent, v: Verdict)
    requires CollisionFree(h) && Linked(h, [e]) && CheckLink(h, x, 1, GenesisHash()).None?
    requires Answers(h, Shown([x, e], 1, 0), v)
    ensures v == Verdict(true, 1, None, None)
  {
    hide Shown, GenesisHash;
    assert [e][..0] + [x] + [e][0..] == [x, e];
    assert PageStart(1, 1) == 1;
    Inserted(h, [e], 0, x, 1, v);
    assert v.checked == |Shown([x, e], 1, 0)|;
    OneInside([x], e, [], 1, 0);
    assert [x] + [e] + [] == [x, e] && [x] + [] == [x];
    assert Link(h, [e], 0);
    AllShown([x], 1, 0);
  }
}
