/**
 * The account heads move before the balance check. An unbalanced posting is rejected and leaves no
 * entries, but its hashes stay behind as heads, and the next entry on such an account fails the
 * audit; on other accounts it does not. Nothing else can spoil the invariant.
 */
module RejectedPosting {
  import opened Text
  import opened StableSort
  import opened Ledger
  import opened LedgerRuns
  import opened HashBinding

  /** Entry ids of a ledger have no '|'. */
  ghost predicate PlainIds(es: seq<LedgerEntry>) {
    forall e :: e in es ==> NoBar(e.entryId)
  }

  /** The entry ids drawn by a posting are UUIDs that no entry has yet. */
  ghost predicate FreshIds(ids: Ids, es: seq<LedgerEntry>) {
    && (forall k :: NoBar(ids.entry(k)))
    && (forall e, k :: e in es ==> e.entryId != ids.entry(k))
  }

  /** The entry id is read back from the payload, whatever the other fields contain. */
  lemma {:induction false} IdDecodes(e: LedgerEntry, f: LedgerEntry)
    requires NoBar(e.entryId) && NoBar(f.entryId) && PayloadOf(e) == PayloadOf(f)
    ensures e.entryId == f.entryId
  {
    ReadFirst([e.entryId, e.journalId, e.accountId, EntryTypeText(e.entryType), IntText(e.amountCents), IntText(e.createdAt), e.prevHash],
              [f.entryId, f.journalId, f.accountId, EntryTypeText(f.entryType), IntText(f.amountCents), IntText(f.createdAt), f.prevHash]);
  }

  lemma {:induction false} ChainedMembers(hash: string -> string, es: seq<LedgerEntry>, e: LedgerEntry)
    requires Chained(hash, es) && e in es
    ensures e.entryHash == HashOf(hash, e)
  {
    var n := |es| - 1;
    if e != es[n] {
      assert e in es[..n];
      ChainedMembers(hash, es[..n], e);
    }
  }

  predicate Touches(specs: seq<Spec>, a: string) {
    specs != [] && (Touches(specs[..|specs| - 1], a) || specs[|specs| - 1].accountId == a)
  }

  lemma {:induction false} BuiltElsewhere(hash: string -> string, heads: map<string, string>, specs: seq<Spec>, description: string, ids: Ids, now: int, a: string)
    requires !Touches(specs, a)
    ensures var es := Build(hash, heads, specs, description, ids, now);
      Head(Advance(heads, es), a) == Head(heads, a) && Of(es, a) == []
  {
    if specs != [] {
      var before, last := BuildLast(hash, heads, specs, description, ids, now);
      BuiltElsewhere(hash, heads, specs[..|specs| - 1], description, ids, now, a);
      AdvanceMore(heads, before, last, a);
    }
  }

  /** One more entry: the account it is on has its hash as head; others keep theirs. */
  lemma {:induction false} AdvanceMore(heads: map<string, string>, before: seq<LedgerEntry>, last: LedgerEntry, a: string)
    ensures var es := before + [last];
      && Of(es, a) == (if last.accountId == a then Of(before, a) + [last] else Of(before, a))
      && Head(Advance(heads, es), a) == (if last.accountId == a then last.entryHash else Head(Advance(heads, before), a))
  {
    assert (before + [last])[..|before|] == before;
    assert Of(before, a) + [] == Of(before, a);
  }

  /** A touched account gets entries, and its head is the hash of the last of them. */
  lemma {:induction false} BuiltHere(hash: string -> string, heads: map<string, string>, specs: seq<Spec>, description: string, ids: Ids, now: int, a: string)
    requires Touches(specs, a)
    ensures var es := Build(hash, heads, specs, description, ids, now);
      Of(es, a) != [] && Head(Advance(heads, es), a) == LastHash(Of(es, a))
  {
    var n := |specs| - 1;
    var before, last := BuildLast(hash, heads, specs, description, ids, now);
    AdvanceMore(heads, before, last, a);
    if specs[n].accountId != a {
      BuiltHere(hash, heads, specs[..n], description, ids, now, a);
    }
  }

  /** The head of a touched account is the hash of a built entry. */
  lemma {:induction false} BuiltHead(hash: string -> string, heads: map<string, string>, specs: seq<Spec>, description: string, ids: Ids, now: int, a: string)
    returns (e: LedgerEntry, i: nat)
    requires Touches(specs, a)
    ensures Head(Advance(heads, Build(hash, heads, specs, description, ids, now)), a) == HashOf(hash, e)
    ensures e.entryId == ids.entry(i)
  {
    var built := Build(hash, heads, specs, description, ids, now);
    BuiltHere(hash, heads, specs, description, ids, now, a);
    e := LastOf(built, a);
    var k :| 0 <= k < |built| && built[k] == e;
    BuildRepeatsAt(hash, heads, specs, description, ids, now, k);
    i := k;
  }

  /** On every account it touches, a rejected journal has left a head that is not the account's last hash. */
  lemma {:induction false} RejectionMovesHead(hash: string -> string, s: LedgerState, specs: seq<Spec>, description: string, ids: Ids, now: int, a: string)
    requires Ideal(hash) && s.heads == Advance(map[], s.entries) && Chained(hash, s.entries)
    requires PlainIds(s.entries) && FreshIds(ids, s.entries)
    requires AmountsOk(specs) && SpecSide(specs, DEBIT) != SpecSide(specs, CREDIT) && Touches(specs, a)
    ensures var s' := Post(hash, s, specs, description, ids, now).0;
      s'.entries == s.entries && Head(s'.heads, a) != LastHash(Of(s.entries, a))
  {
    BuildSide(hash, s.heads, specs, description, ids, now, DEBIT);
    BuildSide(hash, s.heads, specs, description, ids, now, CREDIT);
    var e, i := BuiltHead(hash, s.heads, specs, description, ids, now, a);
    if Of(s.entries, a) != [] {
      var f := LastOf(s.entries, a);
      ChainedMembers(hash, s.entries, f);
      if HashOf(hash, e) == f.entryHash {
        IdDecodes(e, f);
        assert false;
      }
    }
  }

  lemma {:induction false} LastOf(es: seq<LedgerEntry>, a: string) returns (f: LedgerEntry)
    requires Of(es, a) != []
    ensures f in es && f.entryHash == LastHash(Of(es, a))
  {
    f := Of(es, a)[|Of(es, a)| - 1];
    OfMembers(es, a);
    assert f in Of(es, a);
  }

  /** A call of `post_journal` keeps heads and chains in step exactly when it is not rejected for imbalance. */
  lemma {:induction false} PostSoundIff(hash: string -> string, s: LedgerState, specs: seq<Spec>, description: string, ids: Ids, earlier: int, now: int)
    requires Ideal(hash) && Sound(hash, s, earlier) && earlier <= now
    requires PlainIds(s.entries) && FreshIds(ids, s.entries)
    ensures Sound(hash, Post(hash, s, specs, description, ids, now).0, now)
       <==> !AmountsOk(specs) || SpecSide(specs, DEBIT) == SpecSide(specs, CREDIT)
  {
    BuildSide(hash, s.heads, specs, description, ids, now, DEBIT);
    BuildSide(hash, s.heads, specs, description, ids, now, CREDIT);
    if Post(hash, s, specs, description, ids, now).1.Imbalance? {
      var a := specs[|specs| - 1].accountId;
      RejectionMovesHead(hash, s, specs, description, ids, now, a);
      HeadIsLastHash(s.entries, a);
    } else {
      PostKeepsSound(hash, s, specs, description, ids, earlier, now);
    }
  }

  // ---- Accounts after a posting ----

  lemma {:induction false} LinkedPrefix(hash: string -> string, x: seq<LedgerEntry>, y: seq<LedgerEntry>)
    requires Linked(hash, x + y)
    ensures Linked(hash, x)
  {
    if y == [] {
      assert x + y == x;
    } else {
      assert (x + y)[..|x + y| - 1] == x + y[..|y| - 1];
      LinkedPrefix(hash, x, y[..|y| - 1]);
    }
  }

  /** The first entry on an account links to the head it finds there. */
  lemma {:induction false} FirstOnAccount(hash: string -> string, heads: map<string, string>, specs: seq<Spec>, description: string, ids: Ids, now: int, a: string)
    returns (e: LedgerEntry, rest: seq<LedgerEntry>)
    requires Touches(specs, a)
    ensures Of(Build(hash, heads, specs, description, ids, now), a) == [e] + rest
    ensures e.prevHash == Head(heads, a)
  {
    var n := |specs| - 1;
    var before, last := BuildLast(hash, heads, specs, description, ids, now);
    if Touches(specs[..n], a) {
      e, rest := FirstOnAccount(hash, heads, specs[..n], description, ids, now, a);
      var more := if last.accountId == a then [last] else [];
      assert ([e] + rest) + more == [e] + (rest + more);
      rest := rest + more;
    } else {
      BuiltElsewhere(hash, heads, specs[..n], description, ids, now, a);
      e, rest := last, [];
    }
  }

  lemma {:induction false} LinkMore(hash: string -> string, o: seq<LedgerEntry>, heads: map<string, string>, before: seq<LedgerEntry>, last: LedgerEntry, a: string)
    requires Linked(hash, o + Of(before, a)) && Head(Advance(heads, before), a) == LastHash(o + Of(before, a))
    requires last.prevHash == Head(Advance(heads, before), last.accountId) && last.entryHash == HashOf(hash, last)
    ensures var es := before + [last];
      Linked(hash, o + Of(es, a)) && Head(Advance(heads, es), a) == LastHash(o + Of(es, a))
  {
    var so := o + Of(before, a);
    AdvanceMore(heads, before, last, a);
    if last.accountId == a {
      assert o + Of(before + [last], a) == so + [last] && (so + [last])[..|so|] == so;
    }
  }

  /** From a true head, a journal continues the account's list. */
  lemma {:induction false} BuildLinks(hash: string -> string, o: seq<LedgerEntry>, heads: map<string, string>, specs: seq<Spec>, description: string, ids: Ids, now: int, a: string)
    requires Linked(hash, o) && Head(heads, a) == LastHash(o)
    ensures var es := Build(hash, heads, specs, description, ids, now);
      Linked(hash, o + Of(es, a)) && Head(Advance(heads, es), a) == LastHash(o + Of(es, a))
  {
    if specs == [] {
      assert o + [] == o;
    } else {
      var before, last := BuildLast(hash, heads, specs, description, ids, now);
      BuildLinks(hash, o, heads, specs[..|specs| - 1], description, ids, now, a);
      LinkMore(hash, o, heads, before, last, a);
    }
  }

  lemma {:induction false} BrokenLink(hash: string -> string, o: seq<LedgerEntry>, e: LedgerEntry, rest: seq<LedgerEntry>)
    requires e.prevHash != LastHash(o)
    ensures !Linked(hash, o + ([e] + rest))
  {
    assert o + ([e] + rest) == (o + [e]) + rest;
    assert (o + [e])[..|o|] == o;
    assert !Linked(hash, o + [e]);
    if Linked(hash, (o + [e]) + rest) {
      LinkedPrefix(hash, o + [e], rest);
      assert false;
    }
  }

  // ---- Whole runs of post_journal ----

  /** A call of `post_journal`. */
  datatype JournalCall = JournalCall(specs: seq<Spec>, description: string, ids: Ids, now: int)

  function PostAll(hash: string -> string, s: LedgerState, calls: seq<JournalCall>): LedgerState {
    if calls == [] then s else
      var c := calls[|calls| - 1];
      Post(hash, PostAll(hash, s, calls[..|calls| - 1]), c.specs, c.description, c.ids, c.now).0
  }

  predicate Balanced(c: JournalCall) {
    AmountsOk(c.specs) && SpecSide(c.specs, DEBIT) == SpecSide(c.specs, CREDIT)
  }

  predicate Unbalanced(c: JournalCall) {
    AmountsOk(c.specs) && SpecSide(c.specs, DEBIT) != SpecSide(c.specs, CREDIT)
  }

  /** Balanced calls add entries, unbalanced ones only move heads, and the others do nothing. */
  lemma {:induction false} WhatPostDoes(hash: string -> string, s: LedgerState, c: JournalCall)
    ensures var s' := Post(hash, s, c.specs, c.description, c.ids, c.now).0;
      var built := Build(hash, s.heads, c.specs, c.description, c.ids, c.now);
      && s'.entries == (if Balanced(c) then s.entries + built else s.entries)
      && s'.heads == (if Balanced(c) || Unbalanced(c) then Advance(s.heads, built) else s.heads)
  {
    BuildSide(hash, s.heads, c.specs, c.description, c.ids, c.now, DEBIT);
    BuildSide(hash, s.heads, c.specs, c.description, c.ids, c.now, CREDIT);
  }

  /** Some rejected unbalanced journal touched the account. */
  predicate RejectedOn(calls: seq<JournalCall>, a: string) {
    calls != [] &&
    var c := calls[|calls| - 1];
    RejectedOn(calls[..|calls| - 1], a) || (Unbalanced(c) && Touches(c.specs, a))
  }

  /** After that, an accepted journal touched it. */
  predicate Spoiled(calls: seq<JournalCall>, a: string) {
    calls != [] &&
    var c := calls[|calls| - 1];
    Spoiled(calls[..|calls| - 1], a) || (RejectedOn(calls[..|calls| - 1], a) && Balanced(c) && Touches(c.specs, a))
  }

  ghost predicate Draws(ids: Ids, id: string) {
    exists k: nat :: ids.entry(k) == id
  }

  /** The id was drawn by an accepted call, or by a rejected one. */
  ghost predicate DrawnBy(calls: seq<JournalCall>, id: string, accepted: bool) {
    calls != [] &&
    var c := calls[|calls| - 1];
    DrawnBy(calls[..|calls| - 1], id, accepted) || (Draws(c.ids, id) && if accepted then Balanced(c) else Unbalanced(c))
  }

  /** Every call draws entry ids that are UUIDs and new. */
  ghost predicate AllFresh(es: seq<LedgerEntry>, calls: seq<JournalCall>) {
    calls != [] ==>
      var before, ids := calls[..|calls| - 1], calls[|calls| - 1].ids;
      && AllFresh(es, before) && FreshIds(ids, es)
      && forall id, b :: Draws(ids, id) ==> !DrawnBy(before, id, b)
  }

  /** The clock does not run backwards. */
  ghost predicate InTime(earlier: int, calls: seq<JournalCall>) {
    calls != [] ==>
      var before := calls[..|calls| - 1];
      InTime(earlier, before) && TimeAfter(earlier, before) <= calls[|calls| - 1].now
  }

  function TimeAfter(earlier: int, calls: seq<JournalCall>): int {
    if calls == [] then earlier else calls[|calls| - 1].now
  }

  lemma {:induction false} SpoiledWasRejected(calls: seq<JournalCall>, a: string)
    requires Spoiled(calls, a)
    ensures RejectedOn(calls, a)
  {
    if Spoiled(calls[..|calls| - 1], a) {
      SpoiledWasRejected(calls[..|calls| - 1], a);
    }
  }

  lemma {:induction false} DrawnOnce(es: seq<LedgerEntry>, calls: seq<JournalCall>, id: string)
    requires AllFresh(es, calls) && DrawnBy(calls, id, false)
    ensures !DrawnBy(calls, id, true) && NoBar(id) && forall e :: e in es ==> e.entryId != id
  {
    var before := calls[..|calls| - 1];
    if DrawnBy(before, id, false) {
      DrawnOnce(es, before, id);
    }
  }

  /** Every entry is an old one or was drawn by an accepted call, and carries its own hash. */
  ghost predicate Recorded(hash: string -> string, first: seq<LedgerEntry>, es: seq<LedgerEntry>, calls: seq<JournalCall>) {
    forall e :: e in es ==>
      e.entryHash == HashOf(hash, e) && NoBar(e.entryId) && (e in first || DrawnBy(calls, e.entryId, true))
  }

  /** The account's head is the hash of an entry that was rejected. */
  ghost predicate Stray(hash: string -> string, head: string, calls: seq<JournalCall>) {
    exists g :: head == HashOf(hash, g) && NoBar(g.entryId) && DrawnBy(calls, g.entryId, false)
  }

  /** What a run has done to an account. */
  ghost predicate Tells(hash: string -> string, s: LedgerState, calls: seq<JournalCall>, a: string) {
    && (Linked(hash, Of(s.entries, a)) <==> !Spoiled(calls, a))
    && (!RejectedOn(calls, a) ==> Head(s.heads, a) == LastHash(Of(s.entries, a)))
    && (RejectedOn(calls, a) && !Spoiled(calls, a) ==> Stray(hash, Head(s.heads, a), calls))
  }

  /** A stray head is no entry's hash. */
  lemma {:induction false} StrayIsNoHash(hash: string -> string, first: seq<LedgerEntry>, es: seq<LedgerEntry>, calls: seq<JournalCall>, head: string, a: string)
    requires Ideal(hash) && Recorded(hash, first, es, calls) && AllFresh(first, calls) && Stray(hash, head, calls)
    ensures head != LastHash(Of(es, a))
  {
    var g :| head == HashOf(hash, g) && NoBar(g.entryId) && DrawnBy(calls, g.entryId, false);
    if Of(es, a) != [] {
      var f := LastOf(es, a);
      if head == f.entryHash {
        IdDecodes(f, g);
        DrawnOnce(first, calls, g.entryId);
        assert false;
      }
    }
  }

  lemma {:induction false} RejectedStrays(hash: string -> string, heads: map<string, string>, before: seq<JournalCall>, c: JournalCall, a: string)
    requires Unbalanced(c) && Touches(c.specs, a) && forall k :: NoBar(c.ids.entry(k))
    ensures Stray(hash, Head(Advance(heads, Build(hash, heads, c.specs, c.description, c.ids, c.now)), a), before + [c])
  {
    var g, i := BuiltHead(hash, heads, c.specs, c.description, c.ids, c.now, a);
    assert (before + [c])[..|before|] == before;
    assert Draws(c.ids, g.entryId);
  }

  /** A rejected journal leaves stray heads where it touches, and the other heads as they were. */
  lemma {:induction false} RejectedTells(hash: string -> string, s: LedgerState, before: seq<JournalCall>, c: JournalCall, a: string)
    requires Tells(hash, s, before, a) && Unbalanced(c) && forall k :: NoBar(c.ids.entry(k))
    ensures Tells(hash, Post(hash, s, c.specs, c.description, c.ids, c.now).0, before + [c], a)
  {
    WhatPostDoes(hash, s, c);
    assert (before + [c])[..|before|] == before;
    if Touches(c.specs, a) {
      RejectedStrays(hash, s.heads, before, c, a);
    } else {
      BuiltElsewhere(hash, s.heads, c.specs, c.description, c.ids, c.now, a);
    }
  }

  /** An accepted journal continues true heads and breaks the chain on stray ones. */
  lemma {:induction false} AcceptedTells(hash: string -> string, first: seq<LedgerEntry>, s: LedgerState, before: seq<JournalCall>, c: JournalCall, a: string)
    requires Ideal(hash) && Tells(hash, s, before, a) && Balanced(c)
    requires Recorded(hash, first, s.entries, before) && AllFresh(first, before)
    ensures Tells(hash, Post(hash, s, c.specs, c.description, c.ids, c.now).0, before + [c], a)
  {
    WhatPostDoes(hash, s, c);
    assert (before + [c])[..|before|] == before;
    var built := Build(hash, s.heads, c.specs, c.description, c.ids, c.now);
    var o := Of(s.entries, a);
    OfConcat(s.entries, built, a);
    if !Touches(c.specs, a) {
      BuiltElsewhere(hash, s.heads, c.specs, c.description, c.ids, c.now, a);
      assert o + [] == o;
    } else if !RejectedOn(before, a) {
      if Spoiled(before, a) {
        SpoiledWasRejected(before, a);
      }
      BuildLinks(hash, o, s.heads, c.specs, c.description, c.ids, c.now, a);
    } else {
      AcceptedSpoils(hash, first, s, before, c, a);
    }
  }

  lemma {:induction false} AcceptedSpoils(hash: string -> string, first: seq<LedgerEntry>, s: LedgerState, before: seq<JournalCall>, c: JournalCall, a: string)
    requires Ideal(hash) && Tells(hash, s, before, a) && Touches(c.specs, a) && RejectedOn(before, a)
    requires Recorded(hash, first, s.entries, before) && AllFresh(first, before)
    ensures !Linked(hash, Of(s.entries, a) + Of(Build(hash, s.heads, c.specs, c.description, c.ids, c.now), a))
  {
    var built := Build(hash, s.heads, c.specs, c.description, c.ids, c.now);
    var o := Of(s.entries, a);
    if Spoiled(before, a) {
      if Linked(hash, o + Of(built, a)) {
        LinkedPrefix(hash, o, Of(built, a));
        assert false;
      }
    } else {
      var e, rest := FirstOnAccount(hash, s.heads, c.specs, c.description, c.ids, c.now, a);
      StrayIsNoHash(hash, first, s.entries, before, Head(s.heads, a), a);
      BrokenLink(hash, o, e, rest);
    }
  }

  lemma {:induction false} RecordedMore(hash: string -> string, first: seq<LedgerEntry>, s: LedgerState, before: seq<JournalCall>, c: JournalCall)
    requires Recorded(hash, first, s.entries, before) && forall k :: NoBar(c.ids.entry(k))
    ensures Recorded(hash, first, Post(hash, s, c.specs, c.description, c.ids, c.now).0.entries, before + [c])
  {
    WhatPostDoes(hash, s, c);
    assert (before + [c])[..|before|] == before;
    var built := Build(hash, s.heads, c.specs, c.description, c.ids, c.now);
    forall e | e in built
      ensures e.entryHash == HashOf(hash, e) && Draws(c.ids, e.entryId)
    {
      var i :| 0 <= i < |built| && built[i] == e;
      BuildRepeatsAt(hash, s.heads, c.specs, c.description, c.ids, c.now, i);
    }
  }

  /** Entries stay in time order. */
  ghost predicate Ordered(es: seq<LedgerEntry>, now: int) {
    Sorted(es, TimeLe) && forall e :: e in es ==> e.createdAt <= now
  }

  lemma {:induction false} OrderedMore(hash: string -> string, s: LedgerState, c: JournalCall, earlier: int)
    requires Ordered(s.entries, earlier) && earlier <= c.now
    ensures Ordered(Post(hash, s, c.specs, c.description, c.ids, c.now).0.entries, c.now)
  {
    WhatPostDoes(hash, s, c);
    BuiltNow(hash, s.heads, c.specs, c.description, c.ids, c.now);
    TimesGrow(s.entries, Build(hash, s.heads, c.specs, c.description, c.ids, c.now), c.now);
  }

  lemma {:induction false} StartTells(hash: string -> string, s: LedgerState, earlier: int, a: string)
    requires Sound(hash, s, earlier)
    ensures Tells(hash, s, [], a)
  {
    ChainedIsLinked(hash, s.entries, a);
    HeadIsLastHash(s.entries, a);
  }

  lemma {:induction false} RunKeeps(hash: string -> string, s: LedgerState, earlier: int, calls: seq<JournalCall>)
    requires Sound(hash, s, earlier) && PlainIds(s.entries) && AllFresh(s.entries, calls) && InTime(earlier, calls)
    ensures Recorded(hash, s.entries, PostAll(hash, s, calls).entries, calls)
    ensures Ordered(PostAll(hash, s, calls).entries, TimeAfter(earlier, calls))
  {
    if calls == [] {
      forall e | e in s.entries
        ensures e.entryHash == HashOf(hash, e)
      {
        ChainedMembers(hash, s.entries, e);
      }
    } else {
      var before, c := calls[..|calls| - 1], calls[|calls| - 1];
      RunKeeps(hash, s, earlier, before);
      RecordedMore(hash, s.entries, PostAll(hash, s, before), before, c);
      OrderedMore(hash, PostAll(hash, s, before), c, TimeAfter(earlier, before));
      assert calls == before + [c];
    }
  }

  lemma {:induction false} OneMoreTells(hash: string -> string, first: seq<LedgerEntry>, s: LedgerState, before: seq<JournalCall>, c: JournalCall, a: string)
    requires Ideal(hash) && Tells(hash, s, before, a)
    requires Recorded(hash, first, s.entries, before) && AllFresh(first, before) && FreshIds(c.ids, first)
    ensures Tells(hash, Post(hash, s, c.specs, c.description, c.ids, c.now).0, before + [c], a)
  {
    if Balanced(c) {
      AcceptedTells(hash, first, s, before, c, a);
    } else if Unbalanced(c) {
      RejectedTells(hash, s, before, c, a);
    }
  }

  lemma {:induction false} RunTells(hash: string -> string, s: LedgerState, earlier: int, calls: seq<JournalCall>, a: string)
    requires Ideal(hash) && Sound(hash, s, earlier) && PlainIds(s.entries) && AllFresh(s.entries, calls) && InTime(earlier, calls)
    ensures Tells(hash, PostAll(hash, s, calls), calls, a)
  {
    if calls == [] {
      StartTells(hash, s, earlier, a);
    } else {
      var before, c := calls[..|calls| - 1], calls[|calls| - 1];
      RunTells(hash, s, earlier, before, a);
      RunKeeps(hash, s, earlier, before);
      OneMoreTells(hash, s.entries, PostAll(hash, s, before), before, c, a);
      assert calls == before + [c];
    }
  }

  lemma {:induction false} RejectedOnIff(calls: seq<JournalCall>, a: string)
    ensures RejectedOn(calls, a) <==> exists i :: 0 <= i < |calls| && Unbalanced(calls[i]) && Touches(calls[i].specs, a)
  {
    if calls != [] {
      var before := calls[..|calls| - 1];
      RejectedOnIff(before, a);
      if RejectedOn(before, a) {
        var i :| 0 <= i < |before| && Unbalanced(before[i]) && Touches(before[i].specs, a);
        assert calls[i] == before[i];
      }
      if i :| 0 <= i < |calls| - 1 && Unbalanced(calls[i]) && Touches(calls[i].specs, a) {
        assert before[i] == calls[i];
      }
    }
  }

  /** An accepted journal follows a rejected unbalanced one, and both touch the account. */
  ghost predicate Follows(calls: seq<JournalCall>, a: string) {
    exists i, j :: 0 <= i < j < |calls| &&
      Unbalanced(calls[i]) && Touches(calls[i].specs, a) && Balanced(calls[j]) && Touches(calls[j].specs, a)
  }

  lemma {:induction false} SpoiledIff(calls: seq<JournalCall>, a: string)
    ensures Spoiled(calls, a) <==> Follows(calls, a)
  {
    if calls != [] {
      var n := |calls| - 1;
      var before := calls[..n];
      assert forall i :: 0 <= i < n ==> before[i] == calls[i];
      SpoiledIff(before, a);
      RejectedOnIff(before, a);
      if Spoiled(calls, a) && !Spoiled(before, a) {
        var i :| 0 <= i < n && Unbalanced(before[i]) && Touches(before[i].specs, a);
        assert Unbalanced(calls[i]) && Balanced(calls[n]);
      }
      if Follows(calls, a) {
        var i, j :| 0 <= i < j < |calls| && Unbalanced(calls[i]) && Touches(calls[i].specs, a) && Balanced(calls[j]) && Touches(calls[j].specs, a);
        if j < n {
          assert Unbalanced(before[i]) && Balanced(before[j]);
        } else {
          assert Unbalanced(before[i]) && RejectedOn(before, a);
        }
      }
    }
  }

  /**
   * After any run of `post_journal` calls on a sound ledger, the audit fails, although no entry was
   * tampered with, exactly when an accepted journal came somewhere after a rejected unbalanced one
   * with which it shares an account.
   */
  lemma {:induction false} RejectionsSpoilAuditIff(hash: string -> string, s: LedgerState, earlier: int, calls: seq<JournalCall>)
    requires Ideal(hash) && Sound(hash, s, earlier) && PlainIds(s.entries) && AllFresh(s.entries, calls) && InTime(earlier, calls)
    ensures Audit(hash, PostAll(hash, s, calls).entries) != [] <==> exists a :: Follows(calls, a)
  {
    var es := PostAll(hash, s, calls).entries;
    RunKeeps(hash, s, earlier, calls);
    AuditCleanIff(hash, es);
    forall a
      ensures Linked(hash, Timeline(es, a)) <==> !Follows(calls, a)
    {
      RunTells(hash, s, earlier, calls, a);
      TimelineIsLedgerOrder(es, a);
      SpoiledIff(calls, a);
    }
  }
}
