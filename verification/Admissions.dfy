/** What `remember`, `propose_facts` and `submit_proposal` leave in the store, stated field by field and
    without their definitions. */
module Admissions {
  import opened Wrappers
  import opened Records
  import opened AuditLog
  import opened Operations
  import opened Lifecycle

  // ---- duplicates -----------------------------------------------------------

  /** A row that is active (or quarantined, if those count) with the same non-empty normalised wording. */
  predicate SameWording(p: Policy, rows: Rows, content: string, quarantinedToo: bool, k: Id) {
    && k in rows && (rows[k].status.Active? || (quarantinedToo && rows[k].status.Quarantined?))
    && p.normalize(content) != "" && p.normalize(rows[k].content) == p.normalize(content)
  }

  ghost predicate Known(p: Policy, rows: Rows, content: string, quarantinedToo: bool) {
    exists k :: SameWording(p, rows, content, quarantinedToo, k)
  }

  /** Created earlier, or at the same time with the smaller id. */
  predicate Older(rows: Rows, k: Id, j: Id)
    requires k in rows && j in rows
  {
    rows[k].createdAt < rows[j].createdAt || (rows[k].createdAt == rows[j].createdAt && k < j)
  }

  /** The oldest such row. */
  ghost predicate OldestWording(p: Policy, rows: Rows, content: string, quarantinedToo: bool, k: Id) {
    && SameWording(p, rows, content, quarantinedToo, k)
    && forall j :: SameWording(p, rows, content, quarantinedToo, j) && j != k ==> Older(rows, k, j)
  }

  lemma DuplicateFound(p: Policy, rows: Rows, content: string, quarantinedToo: bool)
    ensures var found := FindDuplicate(p, rows, content, if quarantinedToo then {Active, Quarantined} else {Active});
            && (found.Some? <==> Known(p, rows, content, quarantinedToo))
            && (found.Some? ==> OldestWording(p, rows, content, quarantinedToo, found.value))
  {
    var statuses := if quarantinedToo then {Active, Quarantined} else {Active};
    var s := Duplicates(p, rows, content, statuses);
    assert forall k :: k in s <==> SameWording(p, rows, content, quarantinedToo, k);
    if s != {} {
      assert SameWording(p, rows, content, quarantinedToo, Oldest(rows, s));
    }
  }

  // ---- remember -------------------------------------------------------------

  /** Users' own statements and confirmed facts are trusted. */
  predicate Trusted(c: Candidate) {
    c.tier == TrustedUser || c.tier == UserConfirmed
  }

  /** The row holds what the candidate says, without labels, lineage or scope. */
  predicate Holds(r: Record, c: Candidate) {
    && r.content == c.content && r.tier == c.tier && r.factKey == c.factKey && r.createdAt == c.now
    && r.provenance == c.provenance && r.updatedAt.None? && r.raw == Raw(None, [], {}, "personal", None, None, false)
    && r.status == (if Trusted(c) then Active else Quarantined)
  }

  /** A trusted candidate takes over its fact slot from this row. */
  predicate TakesOver(rows: Rows, c: Candidate, k: Id) {
    Trusted(c) && c.factKey.Some? && c.factKey.value != "" && k in rows && rows[k].status.Active? && rows[k].factKey == c.factKey
  }

  /** The row was retired in favour of `keeper` and otherwise kept. */
  predicate RetiredFor(r: Record, r': Record, keeper: Id, now: int) {
    && r'.status.Superseded? && r'.raw.supersededBy == Some(keeper) && r'.updatedAt == Some(now)
    && r'.content == r.content && r'.tier == r.tier && r'.provenance == r.provenance && r'.createdAt == r.createdAt
    && r'.supersedes == r.supersedes && r'.factKey == r.factKey
    && r'.raw.taint == r.raw.taint && r'.raw.related == r.raw.related && r'.raw.authority == r.raw.authority
    && r'.raw.sensitivity == r.raw.sensitivity
  }

  /** The candidate is stored as one new row that retires the rows of its slot. */
  ghost predicate Stores(rows: Rows, rows': Rows, c: Candidate) {
    && c.id !in rows && rows'.Keys == rows.Keys + {c.id} && Holds(rows'[c.id], c)
    && (forall k :: k in rows ==> if TakesOver(rows, c, k) then RetiredFor(rows[k], rows'[k], c.id, c.now)
                                  else rows'[k] == rows[k])
    && (rows'[c.id].supersedes.None? <==> forall k :: k in rows ==> !TakesOver(rows, c, k))
    && (rows'[c.id].supersedes.Some? ==> TakesOver(rows, c, rows'[c.id].supersedes.value))
  }

  /** The event that announces a stored candidate commits to the row as stored. */
  ghost predicate Announces(e: Event, rows: Rows, rows': Rows, c: Candidate)
    requires c.id in rows'
  {
    && e.kind == (if Trusted(c) then RecordCreated else RecordQuarantined) && e.record == Some(c.id)
    && e.payload.commitment == Some(Commit(c.id, rows'[c.id]))
    && (forall k :: k in e.payload.supersedes <==> TakesOver(rows, c, k))
  }

  lemma StoredIs(rows: Rows, c: Candidate)
    requires c.id !in rows
    ensures Stores(rows, Stored(rows, c), c)
    ensures forall k :: k in Displaced(rows, c) <==> TakesOver(rows, c, k)
  {
    hide Stored, Displaced, Plain, RowOk;
    DisplacedIs(rows, c);
    StoredShape(rows, c);
    var older := Displaced(rows, c);
    if older != [] {
      assert older[0] in older;
    }
  }

  lemma DisplacedIs(rows: Rows, c: Candidate)
    ensures forall k :: k in Displaced(rows, c) <==> TakesOver(rows, c, k)
  {
  }

  /** One candidate, exactly: it succeeds unless its id is taken; a trusted statement is ignored only for an
      active row of the same wording, any other also for a quarantined one; the oldest such row is noted. */
  lemma RememberOneExactly(p: Policy, l: Ledger, c: Candidate)
    ensures RememberOne(p, l, c).Ok? <==> Known(p, l.rows, c.content, !Trusted(c)) || c.id !in l.rows
    ensures RememberOne(p, l, c).Ok? ==>
              var l' := RememberOne(p, l, c).value;
              && |l'.log| == |l.log| + 1 && l.log <= l'.log
              && if Known(p, l.rows, c.content, !Trusted(c))
                 then l'.rows == l.rows && Ignores(p, l.rows, c, l'.log[|l.log|])
                 else Stores(l.rows, l'.rows, c) && Announces(l'.log[|l.log|], l.rows, l'.rows, c)
  {
    hide FindDuplicate, Stored, Displaced, Known, OldestWording;
    DuplicateFound(p, l.rows, c.content, !Trusted(c));
    if c.id !in l.rows {
      StoredIs(l.rows, c);
    }
  }

  /** The event notes the oldest row of the same wording. */
  ghost predicate Ignores(p: Policy, rows: Rows, c: Candidate, e: Event) {
    e.kind == Note("memory.duplicate_ignored") && e.payload == Payload()
    && e.record.Some? && OldestWording(p, rows, c.content, !Trusted(c), e.record.value)
  }

  /** Nothing is lost: every row is still there with its content. */
  ghost predicate Retains(rows: Rows, rows': Rows) {
    forall k :: k in rows ==> k in rows' && rows'[k].content == rows[k].content
  }

  /** The candidate is a new row that its event announced, or a row of the same wording was noted. */
  ghost predicate Accounts(p: Policy, rows: Rows, rows': Rows, c: Candidate, e: Event) {
    || (&& c.id !in rows && c.id in rows' && rows'[c.id].content == c.content && e.record == Some(c.id)
        && e.kind == (if Trusted(c) then RecordCreated else RecordQuarantined))
    || (&& e.kind == Note("memory.duplicate_ignored") && e.record.Some? && e.record.value in rows'
        && p.normalize(rows'[e.record.value].content) == p.normalize(c.content))
  }

  /** The new rows are those of candidates. */
  ghost predicate OnlyCandidates(rows: Rows, rows': Rows, cs: seq<Candidate>) {
    forall k :: k in rows' && k !in rows ==> exists j :: 0 <= j < |cs| && cs[j].id == k && rows'[k].content == cs[j].content
  }

  lemma OneAccounts(p: Policy, l: Ledger, c: Candidate, l': Ledger)
    requires RememberOne(p, l, c) == Ok(l')
    ensures |l'.log| == |l.log| + 1 && l.log <= l'.log
    ensures Retains(l.rows, l'.rows) && Accounts(p, l.rows, l'.rows, c, l'.log[|l.log|])
    ensures forall k :: k in l'.rows && k !in l.rows ==> k == c.id && l'.rows[k].content == c.content
  {
    hide RememberOne, Known, TakesOver, Announces;
    RememberOneExactly(p, l, c);
    if !Known(p, l.rows, c.content, !Trusted(c)) {
      AnnouncedKind(l'.log[|l.log|], l.rows, l'.rows, c);
    }
  }

  lemma AnnouncedKind(e: Event, rows: Rows, rows': Rows, c: Candidate)
    requires c.id in rows' && Announces(e, rows, rows', c)
    ensures e.kind == (if Trusted(c) then RecordCreated else RecordQuarantined) && e.record == Some(c.id)
  {
  }

  /** Every candidate of a message is accounted for by its own event, in order: it is stored, or the row that
      already says the same is noted; and nothing else is stored. */
  lemma {:induction false} EveryCandidateIsKept(p: Policy, l: Ledger, cs: seq<Candidate>, l': Ledger)
    requires RememberAll(p, l, cs) == Ok(l')
    ensures |l'.log| == |l.log| + |cs| && l.log <= l'.log
    ensures Retains(l.rows, l'.rows) && OnlyCandidates(l.rows, l'.rows, cs)
    ensures forall j :: 0 <= j < |cs| ==> Accounts(p, l.rows, l'.rows, cs[j], l'.log[|l.log| + j])
    decreases |cs|
  {
    hide RememberOne, Accounts;
    if cs != [] {
      var l1 := RememberOne(p, l, cs[0]).value;
      OneAccounts(p, l, cs[0], l1);
      var rest := cs[1..];
      EveryCandidateIsKept(p, l1, rest, l');
      forall j | 0 <= j < |cs|
        ensures Accounts(p, l.rows, l'.rows, cs[j], l'.log[|l.log| + j])
      {
        if j == 0 {
          assert l'.log[|l.log|] == l1.log[|l.log|];
          StillAccounts(p, l.rows, l1.rows, l'.rows, cs[0], l'.log[|l.log|]);
        } else {
          assert rest[j - 1] == cs[j];
          EarlierAccounts(p, l.rows, l1.rows, l'.rows, cs[j], l'.log[|l.log| + j]);
        }
      }
      forall k | k in l'.rows && k !in l.rows
        ensures exists j :: 0 <= j < |cs| && cs[j].id == k && l'.rows[k].content == cs[j].content
      {
        if k in l1.rows {
          assert cs[0].id == k;
        } else {
          var j :| 0 <= j < |rest| && rest[j].id == k && l'.rows[k].content == rest[j].content;
          assert cs[j + 1] == rest[j];
        }
      }
    }
  }

  lemma StillAccounts(p: Policy, rows: Rows, rows1: Rows, rows2: Rows, c: Candidate, e: Event)
    requires Accounts(p, rows, rows1, c, e) && Retains(rows1, rows2)
    ensures Accounts(p, rows, rows2, c, e)
  {
  }

  lemma EarlierAccounts(p: Policy, rows: Rows, rows1: Rows, rows2: Rows, c: Candidate, e: Event)
    requires Accounts(p, rows1, rows2, c, e) && Retains(rows, rows1)
    ensures Accounts(p, rows, rows2, c, e)
  {
  }

  /** A host interpretation, exactly: it needs a trusted user message and at most 2000 characters; it is noted
      when an active row says the same, and otherwise stored as one new row, for which its id must be new. */
  lemma InterpretationExactly(p: Policy, l: Ledger, c: Candidate)
    ensures Remember(p, l, Interpreted(c)).Ok?
            <==> c.tier == TrustedUser && |c.content| <= 2000
                 && (Known(p, l.rows, c.content, false) || c.id !in l.rows)
    ensures Remember(p, l, Interpreted(c)).Ok? ==>
              var l' := Remember(p, l, Interpreted(c)).value;
              if Known(p, l.rows, c.content, false) then
                && l'.rows == l.rows && |l'.log| == |l.log| + 1 && l.log <= l'.log
                && (var e := l'.log[|l.log|];
                    e.record.Some? && OldestWording(p, l.rows, c.content, false, e.record.value))
              else
                && Stores(l.rows, l'.rows, c) && |l'.log| == |l.log| + 3 && l.log <= l'.log
                && Announces(l'.log[|l.log| + 2], l.rows, l'.rows, c)
  {
    hide FindDuplicate, RememberOne, Known, OldestWording, Stores, Announces;
    DuplicateFound(p, l.rows, c.content, false);
    var l2 := Noted(Noted(l, "episode.ingested"), "memory.semantic_interpretation_received");
    assert [c][0] == c && [c][1..] == [];
    RememberOneExactly(p, l2, c);
    assert RememberOne(p, l2, c).Ok? ==> RememberAll(p, RememberOne(p, l2, c).value, []) == RememberOne(p, l2, c);
    assert RememberAll(p, l2, [c]) == RememberOne(p, l2, c);
  }

  /** A message, exactly: refused content stores nothing; every candidate of any other message is accounted for,
      right after the event that reports its arrival. */
  lemma MessageIsKept(p: Policy, l: Ledger, cs: seq<Candidate>, untrusted: bool, l': Ledger)
    requires Remember(p, l, Extracted(cs, untrusted)) == Ok(l')
    ensures l.log <= l'.log && |l'.log| == |l.log| + 1 + (if cs == [] && untrusted then 1 else |cs|)
    ensures Retains(l.rows, l'.rows) && OnlyCandidates(l.rows, l'.rows, cs)
    ensures forall j :: 0 <= j < |cs| ==> Accounts(p, l.rows, l'.rows, cs[j], l'.log[|l.log| + 1 + j])
    ensures cs == [] ==> l'.rows == l.rows
  {
    hide RememberAll, Accounts;
    var l1 := Noted(l, "episode.ingested");
    if !(cs == [] && untrusted) {
      EveryCandidateIsKept(p, l1, cs, l');
      NoCandidates(p, l1);
    }
  }

  lemma NoCandidates(p: Policy, l: Ledger)
    ensures RememberAll(p, l, []) == Ok(l)
  {
  }

  lemma RefusedStoresNothing(p: Policy, l: Ledger)
    ensures Remember(p, l, Refused).Ok? && Remember(p, l, Refused).value.rows == l.rows
    ensures |Remember(p, l, Refused).value.log| == |l.log| + 1
  {
  }

  /** Candidates with new ids of their own are always accepted. */
  lemma {:induction false} FreshIdsSucceed(p: Policy, l: Ledger, cs: seq<Candidate>)
    requires forall i :: 0 <= i < |cs| ==> cs[i].id !in l.rows
    requires forall i, j :: 0 <= i < j < |cs| ==> cs[i].id != cs[j].id
    ensures RememberAll(p, l, cs).Ok?
    decreases |cs|
  {
    hide RememberOne, Known;
    if cs != [] {
      RememberOneExactly(p, l, cs[0]);
      var l1 := RememberOne(p, l, cs[0]).value;
      OneAccounts(p, l, cs[0], l1);
      FreshIdsSucceed(p, l1, cs[1..]);
    }
  }

  // ---- propose_facts --------------------------------------------------------

  /** A draft with content whose evidence is not empty and known at the start. */
  predicate WellFounded(d: Draft, sources: set<Id>) {
    d.content != "" && d.evidence != [] && forall e :: e in d.evidence ==> e in sources
  }

  /** The draft as a quarantined, derived row without labels. */
  predicate HoldsDraft(r: Record, d: Draft) {
    && r.content == d.content && r.tier == Derived && r.status == Quarantined && r.factKey == d.factKey
    && r.createdAt == d.now && r.provenance == d.provenance && r.supersedes.None? && r.updatedAt.None?
    && r.raw == Raw(None, [], {}, "personal", None, None, false)
  }

  /** One draft, exactly. */
  lemma ProposeOneExactly(p: Policy, l: Ledger, d: Draft, sources: set<Id>)
    ensures ProposeOne(p, l, d, sources).Ok?
            <==> (WellFounded(d, sources) && !Known(p, l.rows, d.content, true) ==> d.id !in l.rows)
    ensures ProposeOne(p, l, d, sources).Ok? ==>
              var l' := ProposeOne(p, l, d, sources).value;
              if WellFounded(d, sources) && !Known(p, l.rows, d.content, true)
              then d.id in l'.rows && HoldsDraft(l'.rows[d.id], d) && l'.rows == l.rows[d.id := l'.rows[d.id]]
              else l' == l
  {
    hide FindDuplicate, Known, OldestWording;
    DuplicateFound(p, l.rows, d.content, true);
  }

  /** What became of a draft: a quarantined row of its own, or it was unfounded, or a visible row says the same. */
  ghost predicate Explained(p: Policy, rows: Rows, rows': Rows, d: Draft, sources: set<Id>) {
    || (d.id !in rows && d.id in rows' && HoldsDraft(rows'[d.id], d) && WellFounded(d, sources))
    || !WellFounded(d, sources)
    || Known(p, rows', d.content, true)
  }

  /** Every draft is quarantined, unfounded or already known; no existing row changes, and each new row is a
      well-founded draft. */
  lemma {:induction false} EveryDraftIsExplained(p: Policy, l: Ledger, ds: seq<Draft>, sources: set<Id>, l': Ledger)
    requires ProposeAll(p, l, ds, sources) == Ok(l')
    ensures forall k :: k in l.rows ==> k in l'.rows && l'.rows[k] == l.rows[k]
    ensures forall j :: 0 <= j < |ds| ==> Explained(p, l.rows, l'.rows, ds[j], sources)
    ensures forall k :: k in l'.rows && k !in l.rows ==>
                          exists j :: 0 <= j < |ds| && ds[j].id == k && WellFounded(ds[j], sources) && HoldsDraft(l'.rows[k], ds[j])
    decreases |ds|
  {
    hide ProposeOne, WellFounded, HoldsDraft, Known;
    if ds != [] {
      var l1 := ProposeOne(p, l, ds[0], sources).value;
      ProposeOneExactly(p, l, ds[0], sources);
      var rest := ds[1..];
      EveryDraftIsExplained(p, l1, rest, sources, l');
      forall j | 0 <= j < |ds|
        ensures Explained(p, l.rows, l'.rows, ds[j], sources)
      {
        if j == 0 {
          StillKnown(p, l.rows, l'.rows, ds[0].content);
        } else {
          assert rest[j - 1] == ds[j];
        }
      }
      forall k | k in l'.rows && k !in l.rows
        ensures exists j :: 0 <= j < |ds| && ds[j].id == k && WellFounded(ds[j], sources) && HoldsDraft(l'.rows[k], ds[j])
      {
        if k !in l1.rows {
          var j :| 0 <= j < |rest| && rest[j].id == k && WellFounded(rest[j], sources) && HoldsDraft(l'.rows[k], rest[j]);
          assert ds[j + 1] == rest[j];
        }
      }
    }
  }

  /** `propose_facts`: evidence may cite the episodes and the records that existed when the call began. */
  lemma ProposalsAreExplained(p: Policy, l: Ledger, ds: seq<Draft>, episodes: set<Id>, l': Ledger)
    requires Apply(p, l, OpPropose(ds, episodes)) == Ok(l')
    ensures forall k :: k in l.rows ==> k in l'.rows && l'.rows[k] == l.rows[k]
    ensures forall j :: 0 <= j < |ds| ==> Explained(p, l.rows, l'.rows, ds[j], episodes + l.rows.Keys)
    ensures forall k :: k in l'.rows && k !in l.rows ==>
                          exists j :: 0 <= j < |ds| && ds[j].id == k && HoldsDraft(l'.rows[k], ds[j])
  {
    hide ProposeAll, Explained, HoldsDraft, WellFounded;
    EveryDraftIsExplained(p, l, ds, episodes + l.rows.Keys, l');
  }

  lemma StillKnown(p: Policy, rows: Rows, rows': Rows, content: string)
    requires forall k :: k in rows ==> k in rows' && rows'[k] == rows[k]
    ensures Known(p, rows, content, true) ==> Known(p, rows', content, true)
  {
    if k :| SameWording(p, rows, content, true, k) {
      assert SameWording(p, rows', content, true, k);
    }
  }

  // ---- submit_proposal ------------------------------------------------------

  /** Every source is known and in scope, and one has the bound digest. */
  predicate WellSourced(q: Proposal) {
    && (forall s :: s in q.sources ==> s.Some? && s.value.scope == q.scope)
    && exists s :: s in q.sources && s.Some? && s.value.digest == q.binding
  }

  /** Every related record exists in the proposal's own scope. */
  predicate WellRelated(rows: Rows, q: Proposal) {
    forall k :: k in q.related ==> k in rows && rows[k].raw.authority == Some(q.scope)
  }

  /** All sources are authenticated messages of the conversation. */
  predicate FromConversation(q: Proposal) {
    forall s :: s in q.sources && s.Some? ==> s.value.fromConversation && s.value.authenticated
  }

  /** A related record that is labelled, untrusted or no longer active. */
  predicate Doubtful(rows: Rows, q: Proposal, k: Id) {
    k in q.related && k in rows && (rows[k].raw.taint != {} || rows[k].tier == Untrusted || rows[k].status != Active)
  }

  ghost predicate HasDoubtfulParent(rows: Rows, q: Proposal) {
    exists k :: Doubtful(rows, q, k)
  }

  /** An active row holds the proposal's canonical fact key. */
  ghost predicate SlotTaken(p: Policy, rows: Rows, q: Proposal) {
    q.factKey.Some? && p.canonicalKey(q.factKey.value) != ""
    && exists k :: k in rows && rows[k].status.Active? && rows[k].factKey == Some(p.canonicalKey(q.factKey.value))
  }

  /** Label `x` is a parent's, or marks untrusted origin, or marks derivation from a doubtful parent. */
  ghost predicate Labelled(rows: Rows, q: Proposal, x: Label) {
    || (exists k :: k in q.related && k in rows && x in rows[k].raw.taint)
    || (x == UntrustedContent && (!FromConversation(q) || HasDoubtfulParent(rows, q)))
    || (x == DerivedFromTainted && HasDoubtfulParent(rows, q))
  }

  /** A plain addition of non-sensitive content from clean sources and parents into a free slot. */
  ghost predicate SafeToAdd(p: Policy, rows: Rows, q: Proposal) {
    && q.additive && q.sensitivity != "sensitive" && q.sensitivity != "restricted"
    && FromConversation(q) && !HasDoubtfulParent(rows, q) && !SlotTaken(p, rows, q)
  }

  /** The row says what the proposal says. */
  ghost predicate HoldsProposal(p: Policy, rows: Rows, r: Record, q: Proposal) {
    var clean := FromConversation(q) && !HasDoubtfulParent(rows, q);
    && r.content == q.fact && r.createdAt == q.now && r.supersedes.None? && r.updatedAt.None?
    && r.factKey == (if q.factKey.None? then None else Some(p.canonicalKey(q.factKey.value)))
    && r.tier == (if clean then TrustedUser else Untrusted)
    && r.provenance == (if clean then q.provenance else q.provenance.(sourceType := "external_content"))
    && r.status == (if SafeToAdd(p, rows, q) then Active else Quarantined)
    && r.raw.authority == Some(q.scope) && r.raw.related == q.related && r.raw.sensitivity == q.sensitivity
    && r.raw.unit.None? && r.raw.supersededBy.None? && !r.raw.purged
    && forall x :: x in r.raw.taint <==> Labelled(rows, q, x)
  }

  lemma LabelsAre(rows: Rows, q: Proposal, x: Label)
    requires WellRelated(rows, q) && WellSourced(q)
    ensures TrustedSource(q) <==> FromConversation(q)
    ensures ParentTainted(rows, q.related) <==> HasDoubtfulParent(rows, q)
    ensures x in TaintLabels(rows, q) <==> Labelled(rows, q, x)
  {
    assert q.sources != [];
    if k :| k in q.related && x in rows[k].raw.taint {
      assert x in ParentLabels(rows, q.related);
    }
    if k :| Doubtful(rows, q, k) {
      if y :| y in rows[k].raw.taint {
        assert y in ParentLabels(rows, q.related);
      }
    }
    if y :| y in ParentLabels(rows, q.related) {
      var k :| k in q.related && y in rows[k].raw.taint;
      assert Doubtful(rows, q, k);
    }
    if k :| k in q.related && (rows[k].tier.Untrusted? || !rows[k].status.Active?) {
      assert Doubtful(rows, q, k);
    }
  }

  lemma SlotIs(p: Policy, rows: Rows, q: Proposal)
    requires !q.refused
    ensures ActiveWithKey(rows, CanonicalKey(p, q)) != {} <==> SlotTaken(p, rows, q)
  {
    if SlotTaken(p, rows, q) {
      var k :| k in rows && rows[k].status.Active? && rows[k].factKey == Some(p.canonicalKey(q.factKey.value));
      assert k in ActiveWithKey(rows, CanonicalKey(p, q));
    }
  }

  lemma ProposalRowIs(p: Policy, rows: Rows, q: Proposal)
    requires WellRelated(rows, q) && WellSourced(q) && !q.refused
    ensures HoldsProposal(p, rows, ProposalRow(p, rows, q), q)
  {
    hide WellRelated, WellSourced, TrustedSource, FromConversation, ParentTainted, HasDoubtfulParent, TaintLabels, Labelled,
         ActiveWithKey, SlotTaken;
    SlotIs(p, rows, q);
    forall x { LabelsAre(rows, q, x); }
    LabelsAre(rows, q, UntrustedContent);
  }

  /** Proposals share an idempotency slot exactly when workspace, agent and key agree. */
  lemma SlotsAreSeparate(a: Proposal, b: Proposal)
    ensures Slot(a) == Slot(b)
            <==> a.scope.workspace == b.scope.workspace && a.scope.agent == b.scope.agent && a.key == b.key
  {
  }

  /** Whether a submission succeeds: its digest key, if it is one, matches; a known key comes with the same
      payload; a new one needs bound sources, related records in scope and, to be stored, a free record id. */
  lemma SubmissionSucceedsExactly(p: Policy, l: Ledger, q: Proposal)
    ensures SubmitProposal(p, l, q).Ok?
            <==> && (q.key.DigestKey? ==> q.key.digest == q.digest)
                 && if Slot(q) in l.proposals then l.proposals[Slot(q)].digest == q.digest
                    else WellSourced(q) && WellRelated(l.rows, q)
                         && (q.refused || Known(p, l.rows, q.fact, true) || q.id !in l.rows)
  {
    hide FindDuplicate, Known, OldestWording, ProposalRow, ActiveWithKey;
    DuplicateFound(p, l.rows, q.fact, true);
  }

  /** What the first submission leaves: a new row exactly when the proposal is neither refused nor known, with
      the fields of the proposal; a recorded decision that tells the cases apart; all other rows as they were. */
  lemma SubmissionLeaves(p: Policy, l: Ledger, q: Proposal, l': Ledger)
    requires SubmitProposal(p, l, q) == Ok(l') && Slot(q) !in l.proposals
    ensures l'.proposals.Keys == l.proposals.Keys + {Slot(q)}
    ensures var a := l'.proposals[Slot(q)];
            && a.digest == q.digest
            && (a.decision == Rejected <==> q.refused)
            && (a.decision == Duplicate <==> !q.refused && Known(p, l.rows, q.fact, true))
            && if q.refused then l'.rows == l.rows && a.recordIds == a.candidateIds == []
               else if Known(p, l.rows, q.fact, true) then
                 l'.rows == l.rows && a.candidateIds == []
                 && |a.recordIds| == 1 && OldestWording(p, l.rows, q.fact, true, a.recordIds[0])
               else
                 && q.id !in l.rows && q.id in l'.rows && HoldsProposal(p, l.rows, l'.rows[q.id], q)
                 && l'.rows == l.rows[q.id := l'.rows[q.id]]
                 && (a.decision == Admitted <==> SafeToAdd(p, l.rows, q))
                 && (a.decision == Conflict <==> SlotTaken(p, l.rows, q))
                 && (a.decision == Review <==> !SafeToAdd(p, l.rows, q) && !SlotTaken(p, l.rows, q))
                 && a.recordIds == (if SafeToAdd(p, l.rows, q) then [q.id] else [])
                 && a.candidateIds == (if SafeToAdd(p, l.rows, q) then [] else [q.id])
  {
    hide FindDuplicate, Known, OldestWording, ProposalRow, ActiveWithKey, SlotTaken, FromConversation, HasDoubtfulParent,
         Labelled;
    DuplicateFound(p, l.rows, q.fact, true);
    if !q.refused {
      ProposalRowIs(p, l.rows, q);
      SlotIs(p, l.rows, q);
    }
  }
}
