/** What the audit notices when one entry of a clean ledger is altered, its recorded hash kept, or deleted. */
module AlteredEntry {
  import opened Text
  import opened StableSort
  import opened Ledger
  import opened LedgerRuns
  import opened HashBinding

  // ---- A changed payload is always noticed ----

  lemma {:induction false} CancelBack(x: string, y: string, z: string)
    ensures x + z == y + z ==> x == y
  {
    if x + z == y + z {
      assert |x| == |y|;
      assert x == (x + z)[..|x|] && y == (y + z)[..|x|];
    }
  }

  lemma {:induction false} JoinOneDiffers(a: seq<string>, b: seq<string>, k: nat)
    requires |a| == |b| && k < |a| && a[k] != b[k]
    requires forall i :: 0 <= i < |a| && i != k ==> a[i] == b[i]
    ensures Join(a) != Join(b)
  {
    if |a| > 1 {
      var x, y := Join(a[1..]), Join(b[1..]);
      if k == 0 {
        assert a[1..] == b[1..];
        CancelBack(a[0], b[0], "|" + x);
        assert a[0] + ("|" + x) == a[0] + "|" + x && b[0] + ("|" + x) == b[0] + "|" + x;
      } else {
        JoinOneDiffers(a[1..], b[1..], k - 1);
        assert x == (a[0] + "|" + x)[|a[0]| + 1..] && y == (a[0] + "|" + y)[|a[0]| + 1..];
      }
    }
  }

  /** In how many hashed fields two entries differ. */
  function Differences(e: LedgerEntry, f: LedgerEntry): nat {
    (if e.entryId != f.entryId then 1 else 0) + (if e.journalId != f.journalId then 1 else 0) +
    (if e.accountId != f.accountId then 1 else 0) + (if e.entryType != f.entryType then 1 else 0) +
    (if e.amountCents != f.amountCents then 1 else 0) + (if e.createdAt != f.createdAt then 1 else 0) +
    (if e.prevHash != f.prevHash then 1 else 0)
  }

  function Fields(e: LedgerEntry): seq<string> {
    [e.entryId, e.journalId, e.accountId, EntryTypeText(e.entryType), IntText(e.amountCents), IntText(e.createdAt), e.prevHash]
  }

  /** A change of one hashed field, to anything at all, changes the payload. */
  lemma {:induction false} OneFieldChangesPayload(e: LedgerEntry, f: LedgerEntry)
    requires Differences(e, f) == 1
    ensures PayloadOf(e) != PayloadOf(f)
  {
    IntTextInjective(e.amountCents, f.amountCents);
    IntTextInjective(e.createdAt, f.createdAt);
    assert "DEBIT"[0] != "CREDIT"[0];
    var k :=
      if e.entryId != f.entryId then 0 else if e.journalId != f.journalId then 1 else if e.accountId != f.accountId then 2
      else if e.entryType != f.entryType then 3 else if e.amountCents != f.amountCents then 4
      else if e.createdAt != f.createdAt then 5 else 6;
    JoinOneDiffers(Fields(e), Fields(f), k);
  }

  lemma {:induction false} LinkedAt(hash: string -> string, s: seq<LedgerEntry>, k: nat)
    requires Linked(hash, s) && k < |s|
    ensures s[k].entryHash == HashOf(hash, s[k])
    ensures s[k].prevHash == if k == 0 then GENESIS else s[k - 1].entryHash
    ensures Ideal(hash) ==> NoBar(s[k].prevHash)
  {
    var n := |s| - 1;
    if k < n {
      LinkedAt(hash, s[..n], k);
    } else if Ideal(hash) {
      PrevHasNoBar(hash, s);
    }
  }

  /** An entry of a clean ledger carries its own hash and a predecessor hash without '|'. */
  lemma {:induction false} CleanEntry(hash: string -> string, es: seq<LedgerEntry>, e: LedgerEntry)
    requires Audit(hash, es) == [] && e in es
    ensures e.entryHash == HashOf(hash, e) && (Ideal(hash) ==> NoBar(e.prevHash))
  {
    AuditCleanIff(hash, es);
    TimelineMembers(es, e.accountId);
    var s := Timeline(es, e.accountId);
    var k :| 0 <= k < |s| && s[k] == e;
    LinkedAt(hash, s, k);
  }

  /** Whatever is written into an entry: if its payload is another one, the audit reports it. */
  lemma {:induction false} PayloadChangeReported(hash: string -> string, es: seq<LedgerEntry>, i: nat, e: LedgerEntry)
    requires Ideal(hash) && Audit(hash, es) == [] && i < |es| && e.entryHash == es[i].entryHash
    requires PayloadOf(e) != PayloadOf(es[i])
    ensures Audit(hash, es[i := e]) != []
  {
    CleanEntry(hash, es, es[i]);
    if Audit(hash, es[i := e]) == [] {
      assert es[i := e][i] == e;
      CleanEntry(hash, es[i := e], e);
      assert false;
    }
  }

  /** A change of one hashed field of one entry, to anything at all, is always reported. */
  lemma {:induction false} OneFieldChangeReported(hash: string -> string, es: seq<LedgerEntry>, i: nat, e: LedgerEntry)
    requires Ideal(hash) && Audit(hash, es) == [] && i < |es| && e.entryHash == es[i].entryHash
    requires Differences(e, es[i]) == 1
    ensures Audit(hash, es[i := e]) != []
  {
    OneFieldChangesPayload(e, es[i]);
    PayloadChangeReported(hash, es, i, e);
  }

  // ---- Entries that the audit cannot tell apart ----

  predicate Alike(e: LedgerEntry, f: LedgerEntry) {
    && e.accountId == f.accountId && e.createdAt == f.createdAt && e.prevHash == f.prevHash
    && e.entryHash == f.entryHash && PayloadOf(e) == PayloadOf(f)
  }

  ghost predicate AllAlike(x: seq<LedgerEntry>, y: seq<LedgerEntry>) {
    |x| == |y| && forall i :: 0 <= i < |x| ==> Alike(x[i], y[i])
  }

  lemma {:induction false} AlikeConcat(x: seq<LedgerEntry>, y: seq<LedgerEntry>, x': seq<LedgerEntry>, y': seq<LedgerEntry>)
    requires AllAlike(x, y) && AllAlike(x', y')
    ensures AllAlike(x + x', y + y')
  {
  }

  lemma {:induction false} AlikeOf(x: seq<LedgerEntry>, y: seq<LedgerEntry>, a: string)
    requires AllAlike(x, y)
    ensures AllAlike(Of(x, a), Of(y, a))
  {
    if x != [] {
      var n := |x| - 1;
      AlikeOf(x[..n], y[..n], a);
      AlikeConcat(Of(x[..n], a), Of(y[..n], a), if x[n].accountId == a then [x[n]] else [], if y[n].accountId == a then [y[n]] else []);
    }
  }

  lemma {:induction false} AlikeInsert(e: LedgerEntry, f: LedgerEntry, s: seq<LedgerEntry>, t: seq<LedgerEntry>)
    requires Alike(e, f) && AllAlike(s, t)
    ensures AllAlike(Insert(e, s, TimeLe), Insert(f, t, TimeLe))
  {
    if s != [] && !TimeLe(e, s[0]) {
      AlikeInsert(e, f, s[1..], t[1..]);
    }
  }

  lemma {:induction false} AlikeSort(s: seq<LedgerEntry>, t: seq<LedgerEntry>)
    requires AllAlike(s, t)
    ensures AllAlike(Sort(s, TimeLe), Sort(t, TimeLe))
  {
    if s != [] {
      AlikeSort(s[1..], t[1..]);
      AlikeInsert(s[0], t[0], Sort(s[1..], TimeLe), Sort(t[1..], TimeLe));
    }
  }

  lemma {:induction false} AlikeLinked(hash: string -> string, s: seq<LedgerEntry>, t: seq<LedgerEntry>)
    requires AllAlike(s, t) && Linked(hash, s)
    ensures Linked(hash, t)
  {
    if s != [] {
      AlikeLinked(hash, s[..|s| - 1], t[..|t| - 1]);
    }
  }

  lemma {:induction false} AlikeAudit(hash: string -> string, x: seq<LedgerEntry>, y: seq<LedgerEntry>)
    requires AllAlike(x, y) && Audit(hash, x) == []
    ensures Audit(hash, y) == []
  {
    AuditCleanIff(hash, x);
    AuditCleanIff(hash, y);
    forall a
      ensures Linked(hash, Timeline(y, a))
    {
      AlikeOf(x, y, a);
      AlikeSort(Of(x, a), Of(y, a));
      AlikeLinked(hash, Timeline(x, a), Timeline(y, a));
    }
  }

  // ---- An entry that moves to another account ----

  lemma {:induction false} OfAround(p: seq<LedgerEntry>, e: LedgerEntry, q: seq<LedgerEntry>, a: string)
    ensures Of(p + [e] + q, a) == Of(p, a) + (if e.accountId == a then [e] else []) + Of(q, a)
  {
    OfConcat(p + [e], q, a);
    OfConcat(p, [e], a);
    assert [e][..0] == [];
  }

  lemma {:induction false} AroundCons(y: LedgerEntry, l: seq<LedgerEntry>, x: LedgerEntry, r: seq<LedgerEntry>)
    ensures [y] + (l + [x] + r) == ([y] + l) + [x] + r && [y] + (l + r) == ([y] + l) + r
  {
  }

  lemma {:induction false} InsertSplits(x: LedgerEntry, s: seq<LedgerEntry>) returns (l: seq<LedgerEntry>, r: seq<LedgerEntry>)
    ensures s == l + r && Insert(x, s, TimeLe) == l + [x] + r
  {
    if s == [] || TimeLe(x, s[0]) {
      l, r := [], s;
    } else {
      var y, rest := s[0], s[1..];
      assert s == [y] + rest;
      l, r := InsertSplits(x, rest);
      AroundCons(y, l, x, r);
      l := [y] + l;
    }
  }

  lemma {:induction false} InsertAtX(h: LedgerEntry, x: LedgerEntry, r: seq<LedgerEntry>)
    returns (l': seq<LedgerEntry>, r': seq<LedgerEntry>)
    requires r != [] ==> TimeLe(x, r[0])
    ensures Insert(h, [x] + r, TimeLe) == l' + [x] + r' && Insert(h, r, TimeLe) == l' + r'
  {
    assert ([x] + r)[1..] == r;
    if TimeLe(h, x) {
      l', r' := [h], r;
    } else {
      l', r' := [], Insert(h, r, TimeLe);
    }
  }

  lemma {:induction false} SortedTail(y: LedgerEntry, s: seq<LedgerEntry>)
    requires Sorted([y] + s, TimeLe)
    ensures Sorted(s, TimeLe) && forall i :: 0 <= i < |s| ==> TimeLe(y, s[i])
  {
    var all := [y] + s;
    assert forall i :: 0 <= i < |s| ==> s[i] == all[i + 1];
    assert all[0] == y;
  }

  /** Inserting into a sorted list with and without x puts the new element in the same place. */
  lemma {:induction false} InsertAround(h: LedgerEntry, l: seq<LedgerEntry>, x: LedgerEntry, r: seq<LedgerEntry>)
    returns (l': seq<LedgerEntry>, r': seq<LedgerEntry>)
    requires Sorted(l + [x] + r, TimeLe)
    ensures Insert(h, l + [x] + r, TimeLe) == l' + [x] + r' && Insert(h, l + r, TimeLe) == l' + r'
  {
    if l == [] {
      assert l + [x] + r == [x] + r && l + r == r;
      SortedTail(x, r);
      l', r' := InsertAtX(h, x, r);
    } else {
      var y, rest := l[0], l[1..];
      assert l == [y] + rest;
      AroundCons(y, rest, x, r);
      SortedTail(y, rest + [x] + r);
      if TimeLe(h, y) {
        l', r' := [h] + l, r;
        AroundCons(h, l, x, r);
      } else {
        l', r' := InsertAround(h, rest, x, r);
        AroundCons(y, l', x, r');
        l' := [y] + l';
      }
    }
  }

  /** A list sorted with and without one of its elements. */
  lemma {:induction false} SortAround(p: seq<LedgerEntry>, x: LedgerEntry, q: seq<LedgerEntry>)
    returns (l: seq<LedgerEntry>, r: seq<LedgerEntry>)
    ensures Sort(p + [x] + q, TimeLe) == l + [x] + r && Sort(p + q, TimeLe) == l + r
  {
    if p == [] {
      assert p + [x] + q == [x] + q && ([x] + q)[1..] == q && p + q == q;
      l, r := InsertSplits(x, Sort(q, TimeLe));
    } else {
      assert (p + [x] + q)[1..] == p[1..] + [x] + q && (p + q)[1..] == p[1..] + q;
      l, r := SortAround(p[1..], x, q);
      SortSorts(p[1..] + [x] + q, TimeLe);
      l, r := InsertAround(p[0], l, x, r);
    }
  }

  /** The timelines of an account with an entry and without it. */
  lemma {:induction false} TimelineAround(p: seq<LedgerEntry>, x: LedgerEntry, q: seq<LedgerEntry>, y: LedgerEntry)
    returns (l: seq<LedgerEntry>, r: seq<LedgerEntry>)
    requires y.accountId != x.accountId
    ensures Timeline(p + [x] + q, x.accountId) == l + [x] + r
    ensures Timeline(p + [y] + q, x.accountId) == l + r
  {
    var a := x.accountId;
    OfAround(p, x, q, a);
    OfAround(p, y, q, a);
    assert Of(p, a) + [] + Of(q, a) == Of(p, a) + Of(q, a);
    l, r := SortAround(Of(p, a), x, Of(q, a));
  }

  /** No hash occurs twice in a linked list. */
  lemma {:induction false} HashesDiffer(hash: string -> string, s: seq<LedgerEntry>, i: nat, j: nat)
    requires Ideal(hash) && Linked(hash, s) && i < j < |s|
    ensures s[i].entryHash != s[j].entryHash
  {
    LinkedAt(hash, s, i);
    LinkedAt(hash, s, j);
    if s[i].entryHash == s[j].entryHash {
      TailDecodes(s[i], s[j]);
      LinkedAt(hash, s, j - 1);
      if i > 0 {
        HashesDiffer(hash, s, i - 1, j - 1);
      }
      assert false;
    }
  }

  /** No entry of a linked list is its own predecessor. */
  lemma {:induction false} NoSelfLink(hash: string -> string, l: seq<LedgerEntry>, x: LedgerEntry, r: seq<LedgerEntry>)
    requires Ideal(hash) && Linked(hash, l + [x] + r)
    ensures x.entryHash != x.prevHash
    ensures r != [] ==> r[0].prevHash == x.entryHash && LastHash(r) != x.entryHash
    ensures x.prevHash == LastHash(l) && NoBar(x.prevHash) && x.entryHash == HashOf(hash, x)
  {
    var s := l + [x] + r;
    var k := |l|;
    assert s[k] == x;
    LinkedAt(hash, s, k);
    if k > 0 {
      assert s[k - 1] == l[k - 1];
      HashesDiffer(hash, s, k - 1, k);
    }
    if r != [] {
      assert s[k + 1] == r[0] && s[|s| - 1] == r[|r| - 1];
      LinkedAt(hash, s, k + 1);
      HashesDiffer(hash, s, k, |s| - 1);
    }
  }

  lemma {:induction false} FirstLink(hash: string -> string, l: seq<LedgerEntry>, r: seq<LedgerEntry>)
    requires Linked(hash, l + r) && r != []
    ensures r[0].prevHash == LastHash(l)
  {
    LinkedAt(hash, l + r, |l|);
    assert (l + r)[|l|] == r[0];
    if l != [] {
      assert (l + r)[|l| - 1] == l[|l| - 1];
    }
  }

  /** Only a last entry can be taken out of a linked list, or put into one. */
  lemma {:induction false} OnlyTheLastMoves(hash: string -> string, l: seq<LedgerEntry>, x: LedgerEntry, r: seq<LedgerEntry>)
    requires Ideal(hash) && Linked(hash, l + [x] + r) && Linked(hash, l + r)
    ensures r == []
  {
    NoSelfLink(hash, l, x, r);
    if r != [] {
      FirstLink(hash, l, r);
      assert false;
    }
  }

  /**
   * What an alteration must keep to pass unnoticed: the payload and the predecessor; and if it moves
   * the entry to another account, the entry was the last of its own and becomes the last of the other.
   */
  ghost predicate StillFits(es: seq<LedgerEntry>, i: nat, e: LedgerEntry)
    requires i < |es|
  {
    && PayloadOf(e) == PayloadOf(es[i]) && e.prevHash == es[i].prevHash
    && (e.accountId != es[i].accountId ==>
         && LastHash(Timeline(es, es[i].accountId)) == es[i].entryHash
         && LastHash(Timeline(es, e.accountId)) == e.prevHash
         && LastHash(Timeline(es[i := e], e.accountId)) == e.entryHash)
  }

  lemma {:induction false} Around(es: seq<LedgerEntry>, i: nat, e: LedgerEntry)
    requires i < |es|
    ensures es == es[..i] + [es[i]] + es[i + 1..] && es[i := e] == es[..i] + [e] + es[i + 1..]
  {
  }

  /** An entry that moved without notice fitted. */
  lemma {:induction false} MovedFits(hash: string -> string, es: seq<LedgerEntry>, i: nat, e: LedgerEntry)
    requires Ideal(hash) && i < |es| && e.accountId != es[i].accountId
    requires (forall a :: Linked(hash, Timeline(es, a)))
    requires Linked(hash, Timeline(es[i := e], es[i].accountId)) && Linked(hash, Timeline(es[i := e], e.accountId))
    requires PayloadOf(e) == PayloadOf(es[i]) && e.prevHash == es[i].prevHash
    ensures StillFits(es, i, e)
  {
    var x, p, q := es[i], es[..i], es[i + 1..];
    Around(es, i, e);
    var l, r := TimelineAround(p, x, q, e);
    OnlyTheLastMoves(hash, l, x, r);
    assert l + [x] + [] == l + [x];
    var m, n := TimelineAround(p, e, q, x);
    OnlyTheLastMoves(hash, m, e, n);
    NoSelfLink(hash, m, e, n);
    assert m + [e] + [] == m + [e] && m + [] == m;
  }

  /** An entry that moves and fits leaves the timeline it was on linked. */
  lemma {:induction false} FittingLeaves(hash: string -> string, es: seq<LedgerEntry>, i: nat, e: LedgerEntry)
    requires Ideal(hash) && (forall a :: Linked(hash, Timeline(es, a)))
    requires i < |es| && e.entryHash == es[i].entryHash && e.accountId != es[i].accountId && StillFits(es, i, e)
    ensures Linked(hash, Timeline(es[i := e], es[i].accountId))
    ensures es[i].entryHash != es[i].prevHash && es[i].entryHash == HashOf(hash, es[i])
  {
    Around(es, i, e);
    var l, r := TimelineAround(es[..i], es[i], es[i + 1..], e);
    NoSelfLink(hash, l, es[i], r);
    assert r == [];
    assert (l + [es[i]] + [])[..|l|] == l == l + [];
  }

  lemma {:induction false} AppendsLinked(hash: string -> string, m: seq<LedgerEntry>, e: LedgerEntry, n: seq<LedgerEntry>)
    requires Linked(hash, m + n) && LastHash(m + n) == e.prevHash && LastHash(m + [e] + n) == e.entryHash
    requires e.entryHash != e.prevHash && e.entryHash == HashOf(hash, e)
    ensures Linked(hash, m + [e] + n)
  {
    assert n == [];
    assert m + [e] + n == m + [e] && m + n == m && (m + [e])[..|m|] == m;
  }

  /** An entry that moves and fits leaves both timelines linked. */
  lemma {:induction false} FittingMove(hash: string -> string, es: seq<LedgerEntry>, i: nat, e: LedgerEntry)
    requires Ideal(hash) && (forall a :: Linked(hash, Timeline(es, a)))
    requires i < |es| && e.entryHash == es[i].entryHash && e.accountId != es[i].accountId && StillFits(es, i, e)
    ensures Linked(hash, Timeline(es[i := e], es[i].accountId)) && Linked(hash, Timeline(es[i := e], e.accountId))
  {
    FittingLeaves(hash, es, i, e);
    Around(es, i, e);
    var m, n := TimelineAround(es[..i], e, es[i + 1..], es[i]);
    AppendsLinked(hash, m, e, n);
  }

  lemma {:induction false} OtherTimelines(es: seq<LedgerEntry>, i: nat, e: LedgerEntry, a: string)
    requires i < |es| && a != e.accountId && a != es[i].accountId
    ensures Timeline(es[i := e], a) == Timeline(es, a)
  {
    Around(es, i, e);
    OfAround(es[..i], es[i], es[i + 1..], a);
    OfAround(es[..i], e, es[i + 1..], a);
  }

  /**
   * Exactly which alterations of one entry, with its recorded hash kept, the audit reports: all but
   * those that keep the payload and leave the entry linked where it then stands.
   */
  lemma {:induction false} ReportedIff(hash: string -> string, es: seq<LedgerEntry>, i: nat, e: LedgerEntry)
    requires Ideal(hash) && Audit(hash, es) == [] && i < |es| && e.entryHash == es[i].entryHash
    ensures Audit(hash, es[i := e]) != [] <==> !StillFits(es, i, e)
  {
    var es' := es[i := e];
    CleanEntry(hash, es, es[i]);
    if Audit(hash, es') == [] {
      if PayloadOf(e) != PayloadOf(es[i]) {
        PayloadChangeReported(hash, es, i, e);
        assert false;
      }
      assert es'[i] == e;
      CleanEntry(hash, es', e);
      TailDecodes(e, es[i]);
      if e.accountId != es[i].accountId {
        AuditCleanIff(hash, es);
        AuditCleanIff(hash, es');
        MovedFits(hash, es, i, e);
      }
    }
    if StillFits(es, i, e) {
      FittingPasses(hash, es, i, e);
    }
  }

  lemma {:induction false} FittingPasses(hash: string -> string, es: seq<LedgerEntry>, i: nat, e: LedgerEntry)
    requires Ideal(hash) && Audit(hash, es) == [] && i < |es| && e.entryHash == es[i].entryHash && StillFits(es, i, e)
    ensures Audit(hash, es[i := e]) == []
  {
    var es' := es[i := e];
    AuditCleanIff(hash, es);
    AuditCleanIff(hash, es');
    if e.accountId == es[i].accountId {
      CleanEntry(hash, es, es[i]);
      TailDecodes(e, es[i]);
      AlikeAudit(hash, es, es');
    } else {
      FittingMove(hash, es, i, e);
      forall a
        ensures Linked(hash, Timeline(es', a))
      {
        if a != e.accountId && a != es[i].accountId {
          OtherTimelines(es, i, e, a);
        }
      }
    }
  }

  /** With UUIDs for entry and journal, before and after, every change of hashed fields is reported. */
  lemma {:induction false} ReportedIffWithUuids(hash: string -> string, es: seq<LedgerEntry>, i: nat, e: LedgerEntry)
    requires Ideal(hash) && Audit(hash, es) == [] && i < |es| && e.entryHash == es[i].entryHash
    requires CleanIds(es[i]) && CleanIds(e)
    ensures Audit(hash, es[i := e]) != [] <==> !SameHashed(e, es[i])
  {
    ReportedIff(hash, es, i, e);
    CleanEntry(hash, es, es[i]);
    if e.prevHash == es[i].prevHash {
      PayloadDecodes(e, es[i]);
    }
  }

  // ---- A deleted entry ----

  /** The timelines of every account with an entry and with it deleted. */
  lemma {:induction false} TimelineWithout(p: seq<LedgerEntry>, x: LedgerEntry, q: seq<LedgerEntry>, a: string)
    returns (l: seq<LedgerEntry>, r: seq<LedgerEntry>)
    ensures Timeline(p + q, a) == l + r
    ensures Timeline(p + [x] + q, a) == if x.accountId == a then l + [x] + r else l + r
  {
    OfAround(p, x, q, a);
    OfConcat(p, q, a);
    if x.accountId == a {
      l, r := SortAround(Of(p, a), x, Of(q, a));
    } else {
      assert Of(p, a) + [] + Of(q, a) == Of(p, a) + Of(q, a);
      l, r := Timeline(p + q, a), [];
    }
  }

  lemma {:induction false} LastDeletionPasses(hash: string -> string, p: seq<LedgerEntry>, x: LedgerEntry, q: seq<LedgerEntry>)
    requires Ideal(hash) && (forall a :: Linked(hash, Timeline(p + [x] + q, a)))
    requires LastHash(Timeline(p + [x] + q, x.accountId)) == x.entryHash
    ensures forall a :: Linked(hash, Timeline(p + q, a))
  {
    forall a
      ensures Linked(hash, Timeline(p + q, a))
    {
      var l, r := TimelineWithout(p, x, q, a);
      if x.accountId == a {
        NoSelfLink(hash, l, x, r);
        if r != [] {
          assert false;
        }
        assert (l + [x] + [])[..|l|] == l == l + [];
      }
    }
  }

  /**
   * Deleting one entry of a clean ledger is reported exactly when it is not the last of its account;
   * the last entries of an account can be deleted, one after the other, without notice.
   */
  lemma {:induction false} DeletionReportedIff(hash: string -> string, p: seq<LedgerEntry>, x: LedgerEntry, q: seq<LedgerEntry>)
    requires Ideal(hash) && Audit(hash, p + [x] + q) == []
    ensures Audit(hash, p + q) != [] <==> LastHash(Timeline(p + [x] + q, x.accountId)) != x.entryHash
  {
    AuditCleanIff(hash, p + [x] + q);
    AuditCleanIff(hash, p + q);
    var l, r := TimelineWithout(p, x, q, x.accountId);
    if Audit(hash, p + q) == [] {
      OnlyTheLastMoves(hash, l, x, r);
      assert l + [x] + [] == l + [x];
    } else if LastHash(Timeline(p + [x] + q, x.accountId)) == x.entryHash {
      LastDeletionPasses(hash, p, x, q);
      assert false;
    }
  }

  // ---- A change of two fields that keeps the payload ----

  /** An account id with '|' can be shifted into the journal id. */
  lemma {:induction false} BarShiftsFields(e: LedgerEntry, w: string, v: string)
    requires e.accountId == w + "|" + v
    ensures PayloadOf(e.(journalId := e.journalId + "|" + w, accountId := v)) == PayloadOf(e)
  {
    var rest := [EntryTypeText(e.entryType), IntText(e.amountCents), IntText(e.createdAt), e.prevHash];
    var f := e.(journalId := e.journalId + "|" + w, accountId := v);
    assert Fields(e) == [e.entryId, e.journalId, e.accountId] + rest;
    assert Fields(f) == [e.entryId, f.journalId, v] + rest;
    JoinThree(e.entryId, e.journalId, e.accountId, rest);
    JoinThree(e.entryId, f.journalId, v, rest);
    assert e.journalId + "|" + (w + "|" + v + "|" + Join(rest)) == e.journalId + "|" + w + "|" + (v + "|" + Join(rest));
  }

  lemma {:induction false} JoinThree(a: string, b: string, c: string, rest: seq<string>)
    requires rest != []
    ensures Join([a, b, c] + rest) == a + "|" + (b + "|" + (c + "|" + Join(rest)))
  {
    assert ([c] + rest)[1..] == rest;
    assert Join([c] + rest) == c + "|" + Join(rest);
    assert ([b, c] + rest)[1..] == [c] + rest;
    assert Join([b, c] + rest) == b + "|" + Join([c] + rest);
    assert ([a, b, c] + rest)[1..] == [b, c] + rest;
  }

  lemma {:induction false} FirstEntryPasses(hash: string -> string, e: LedgerEntry)
    requires e.prevHash == GENESIS && e.entryHash == HashOf(hash, e)
    ensures Audit(hash, [e]) == []
  {
    assert [e][..0] == [];
    assert Chained(hash, []) && Advance(map[], []) == map[];
    assert Chained(hash, [e]);
    ChainedPassesAudit(hash, [e]);
  }

  /** So altering two fields together can pass unnoticed, when a user id contains '|'. */
  lemma {:induction false} ShiftUnnoticed(hash: string -> string, e: LedgerEntry, w: string, v: string)
    requires e.prevHash == GENESIS && e.entryHash == HashOf(hash, e) && e.accountId == w + "|" + v
    ensures var f := e.(journalId := e.journalId + "|" + w, accountId := v);
      Audit(hash, [e]) == [] && Audit(hash, [f]) == [] && !SameHashed(e, f)
  {
    var f := e.(journalId := e.journalId + "|" + w, accountId := v);
    BarShiftsFields(e, w, v);
    FirstEntryPasses(hash, e);
    FirstEntryPasses(hash, f);
    assert |f.accountId| < |e.accountId|;
  }
}
