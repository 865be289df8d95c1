/** The governance object itself: its files and its running call, changed in place step by step. */
module GovernanceClient {
  import opened Common
  import opened Governance
  import opened GovernanceCriteria

  datatype PlanVerdict =
    | Sound | NoSource | NothingRemaining | NoSuccessors | Untitled | WithoutCriteria
    | OutOfScope | RepeatedTitle | NotExact

  lemma {:induction false} DistinctCount(items: seq<string>)
    ensures NoRepeats(items) <==> |Elements(items)| == |items|
    ensures |Elements(items)| <= |items|
  {
    if items != [] {
      var n := |items| - 1;
      DistinctCount(items[..n]);
      assert items == items[..n] + [items[n]];
      assert Elements(items) == Elements(items[..n]) + {items[n]};
      if items[n] in items[..n] {
        assert Elements(items) == Elements(items[..n]);
      } else {
        assert |Elements(items)| == |Elements(items[..n])| + 1;
      }
    }
  }

  lemma {:induction false} TransferredHolds(cfg: Config, successors: seq<Successor>, i: nat)
    requires i < |successors|
    ensures Elements(Clean(cfg, successors[i].criteria)) <= Elements(Transferred(cfg, successors))
  {
    hide Clean;
    var n := |successors| - 1;
    if i < n { TransferredHolds(cfg, successors[..n], i); }
  }

  /** The planning loop of `consolidate_ir` and the two checks after it. */
  method CheckPlan(cfg: Config, scope: Scope) returns (verdict: PlanVerdict)
    ensures verdict.Sound? <==> SoundAsWritten(cfg, scope)
    ensures verdict.Sound? <==> PlanSound(cfg, scope)
  {
    hide Clean, Elements, NoRepeats, SoundAsWritten;
    PlanSoundMeaning(cfg, scope);
    var remaining := Clean(cfg, scope.source.remaining);
    if cfg.strip(scope.source.identifier) == "" { return NoSource; }
    if remaining == [] { return NothingRemaining; }
    if scope.successors == [] { return NoSuccessors; }
    var transferred, titles := [], [];
    var i := 0;
    while i < |scope.successors|
      invariant i <= |scope.successors|
      invariant transferred == Transferred(cfg, scope.successors[..i])
      invariant |titles| == i && forall j :: 0 <= j < i ==> titles[j] == cfg.strip(scope.successors[j].title)
      invariant forall j :: 0 <= j < i ==>
        cfg.strip(scope.successors[j].title) != "" && Clean(cfg, scope.successors[j].criteria) != []
    {
      var title, criteria := cfg.strip(scope.successors[i].title), Clean(cfg, scope.successors[i].criteria);
      if title == "" { return Untitled; }
      if criteria == [] { return WithoutCriteria; }
      if !(Elements(criteria) <= Elements(remaining)) {
        TransferredHolds(cfg, scope.successors, i);
        return OutOfScope;
      }
      assert scope.successors[..i + 1][..i] == scope.successors[..i];
      transferred := transferred + criteria;
      titles := titles + [title];
      i := i + 1;
    }
    assert scope.successors[..i] == scope.successors;
    assert titles == Titles(cfg, scope.successors);
    DistinctCount(titles);
    DistinctCount(transferred);
    if |Elements(titles)| != |titles| { return RepeatedTitle; }
    if Elements(transferred) != Elements(remaining) || |Elements(transferred)| != |transferred| { return NotExact; }
    return Sound;
  }

  /** The identifiers found so far, followed by the rest. */
  function After(ids: seq<Id>, rest: Option<seq<Id>>): Option<seq<Id>> {
    if rest.None? then None else Some(ids + rest.value)
  }

  lemma AfterNone(rest: Option<seq<Id>>)
    ensures After([], rest) == rest
  {
    if rest.Some? { assert [] + rest.value == rest.value; }
  }

  lemma AfterOne(ids: seq<Id>, id: Id, rest: Option<seq<Id>>)
    ensures After(ids, After([id], rest)) == After(ids + [id], rest)
  {
    if rest.Some? { assert ids + ([id] + rest.value) == (ids + [id]) + rest.value; }
  }

  lemma ResolveOne(cfg: Config, s: State, sourceId: Id, wanted: seq<Id>, i: nat, taken: set<Id>, id: Id)
    requires i < |wanted| && Choose(cfg, s, sourceId, wanted[i], taken) == Some(id)
    ensures Resolve(cfg, s, sourceId, wanted[i..], taken) == After([id],
      Resolve(cfg, s, sourceId, wanted[i + 1..], taken + {id}))
  {
    hide Choose;
    assert wanted[i..][1..] == wanted[i + 1..];
  }

  lemma ResolveFails(cfg: Config, s: State, sourceId: Id, wanted: seq<Id>, i: nat, taken: set<Id>, ids: seq<Id>)
    requires i < |wanted| && Choose(cfg, s, sourceId, wanted[i], taken).None?
    ensures After(ids, Resolve(cfg, s, sourceId, wanted[i..], taken)).None?
  {
    hide Choose;
  }

  lemma ResolveNone(cfg: Config, s: State, sourceId: Id, wanted: seq<Id>, taken: set<Id>, ids: seq<Id>)
    requires wanted == []
    ensures After(ids, Resolve(cfg, s, sourceId, wanted, taken)) == Some(ids)
  {
    assert ids + [] == ids;
  }

  class Client {
    const cfg: Config
    var intents: map<Key, Intent>
    var created: seq<Record>
    var plans: map<Id, Plan>
    var transfers: map<Id, Transfer>
    var remote: seq<Issue>
    var sends: seq<Sent>
    var held: set<(nat, Body)>
    var shut: set<nat>
    var readBack: set<(nat, Body)>
    var closes: set<Id>
    var process: Process

    function Now(): State
      reads this
    {
      State(intents, created, plans, transfers, remote, sends, held, shut, readBack, closes, process)
    }

    constructor (cfg: Config)
      ensures this.cfg == cfg && Initial(Now())
    {
      this.cfg := cfg;
      intents, created, plans, transfers := map[], [], map[], map[];
      remote, sends, held, shut, readBack, closes, process := [], [], {}, {}, {}, {}, Idle;
    }

    /** `_already_created` */
    method AlreadyCreated(key: Key) returns (r: Option<Record>)
      ensures r == ByKey(created, key)
    {
      var i := 0;
      while i < |created|
        invariant i <= |created| && ByKey(created, key) == ByKey(created[i..], key)
      {
        if created[i].key == key { return Some(created[i]); }
        assert created[i..][1..] == created[i + 1..];
        i := i + 1;
      }
      return None;
    }

    /** `_record_by_identifier` */
    method RecordByIdentifier(id: Id) returns (r: Option<Record>)
      ensures r == ByIdentifier(created, id)
    {
      var i := 0;
      while i < |created|
        invariant i <= |created| && ByIdentifier(created, id) == ByIdentifier(created[i..], id)
      {
        if created[i].identifier == id { return Some(created[i]); }
        assert created[i..][1..] == created[i + 1..];
        i := i + 1;
      }
      return None;
    }

    /** The call's next durable write, or its return: the intent is written before anything is sent. */
    method Conclude(o: Outcome, caller: Caller)
      modifies this`intents, this`process
      ensures Now() == Begin(old(Now()), o, caller)
    {
      match o
      case Go(req) =>
        intents := intents[req.key := Intent(req.content.identifier, req.content, Sending)];
        process := Ready(req, caller);
      case Recovered(req, number) => process := Answered(req, number, caller);
      case Denied => process := Idle;
      case Raised(_) => process := Idle;
      case _ => process := Resume(caller);
    }

    /** The search loop of `_create_effect`: the first hit that carries the operation's marker. */
    method FindHit(key: Key, content: Content, found: seq<nat>) returns (hit: Option<nat>)
      requires SearchHonest(Now(), found)
      ensures hit == FindMarked(remote, found, key, content)
    {
      hide Marked;
      var i := 0;
      while i < |found|
        invariant i <= |found|
        invariant FindMarked(remote, found, key, content) == FindMarked(remote, found[i..], key, content)
      {
        if Marked(remote[found[i]], key, content) { return Some(found[i]); }
        assert found[i..][1..] == found[i + 1..];
        i := i + 1;
      }
      return None;
    }

    /** `_create_effect` up to the request: the intent is durable before anything is sent. */
    method CreateEffect(req: Request, found: seq<nat>, caller: Caller) returns (o: Outcome)
      requires SearchHonest(Now(), found)
      modifies this`intents, this`process
      ensures o == Governance.CreateEffect(old(Now()), req, found)
      ensures Now() == Begin(old(Now()), o, caller)
    {
      hide FindMarked, Begin;
      var prior := req.key in intents;
      if prior && intents[req.key].content != req.content {
        o := Raised(ScopeChanged);
        Conclude(o, caller);
        return;
      }
      if prior {
        var hit := FindHit(req.key, req.content, found);
        if hit.Some? {
          o := if remote[hit.value].body != req.draft.expected then Raised(BodyChanged) else Recovered(req, hit.value);
          Conclude(o, caller);
          return;
        }
        if intents[req.key].state != Reserved {
          o := Raised(Unconfirmed);
          Conclude(o, caller);
          return;
        }
      }
      if found != [] {
        o := Duplicate;
        Conclude(o, caller);
        return;
      }
      o := Go(req);
      Conclude(o, caller);
    }

    /** `create_issue` */
    method CreateIssue(kind: Kind, title0: string, id0: Id, key0: Key, metadata: Metadata, a: Answers,
        caller: Caller) returns (o: Outcome)
      requires SearchHonest(Now(), a.found)
      modifies this`intents, this`process
      ensures o == AskForIssue(cfg, old(Now()), kind, title0, id0, key0, metadata, a)
      ensures Now() == Begin(old(Now()), o, caller)
    {
      hide AskNumbered, ByKey, SearchHonest, Begin;
      var title, identifier := cfg.strip(title0), cfg.strip(id0);
      if kind == Lab { o := Raised(InvalidKind); Conclude(o, caller); return; }
      if title == "" { o := Raised(NoTitle); Conclude(o, caller); return; }
      var subject := if identifier != "" then identifier else title;
      var key := if cfg.strip(key0) != "" then cfg.strip(key0) else subject;
      var existing := AlreadyCreated(key);
      if existing.Some? {
        var r := existing.value;
        if r.title != title || r.kind != kind || (identifier != "" && r.identifier != identifier) ||
            r.metadata != metadata {
          o := Raised(ScopeChanged);
        } else {
          o := Outcome.AlreadyCreated(r);
        }
        Conclude(o, caller);
        return;
      }
      if !a.allowed { o := Denied; Conclude(o, caller); return; }
      o := CreateNumbered(kind, title, identifier, key, metadata, a, caller);
    }

    /** The number is kept, checked or reserved, and the request prepared under it. */
    method CreateNumbered(kind: Kind, title: string, wanted: Id, key: Key, metadata: Metadata, a: Answers,
        caller: Caller)
        returns (o: Outcome)
      requires SearchHonest(Now(), a.found)
      modifies this`intents, this`process
      ensures o == AskNumbered(cfg, old(Now()), kind, title, wanted, key, metadata, a)
      ensures Now() == Begin(old(Now()), o, caller)
    {
      hide Known, IssueRequest, Governance.CreateEffect, SearchHonest, Begin;
      var identifier := wanted;
      var taken := Known(Now(), a.remoteIds);
      var pending := key in intents;
      if pending && identifier == "" { identifier := intents[key].identifier; }
      if identifier != "" {
        if !cfg.wellFormed(kind, identifier) { o := Raised(Malformed); Conclude(o, caller); return; }
        if identifier in taken && !(pending && intents[key].identifier == identifier) {
          o := IdentifierUsed;
          Conclude(o, caller);
          return;
        }
      } else {
        var reserved := cfg.reserve(kind, taken);
        if reserved.None? { o := Raised(Exhausted); Conclude(o, caller); return; }
        identifier := reserved.value;
      }
      o := CreateEffect(IssueRequest(cfg, kind, title, identifier, key, metadata), a.found, caller);
    }

    /** `propose_lab_issue` */
    method ProposeLabIssue(finding: Finding, key0: Key, a: Answers) returns (o: Outcome)
      requires SearchHonest(Now(), a.found)
      modifies this`intents, this`process
      ensures o == AskForLab(cfg, old(Now()), finding, key0, a)
      ensures Now() == Begin(old(Now()), o, Alone)
    {
      hide Begin, ByKey, LabTaken, Governance.CreateEffect, LabRequest, SearchHonest;
      var key := LabKey(finding, key0);
      var existing := AlreadyCreated(key);
      if existing.Some? {
        o := if existing.value.finding != Some(finding) then Raised(ScopeChanged)
            else Outcome.AlreadyCreated(existing.value);
        Conclude(o, Alone);
        return;
      }
      if !cfg.valid(finding) { o := Raised(InvalidFinding); Conclude(o, Alone); return; }
      if !a.allowed { o := Denied; Conclude(o, Alone); return; }
      var reserved := cfg.reserve(Lab, LabTaken(Now(), a.remoteIds));
      var identifier := if reserved.Some? then reserved.value else key;
      if key in intents { identifier := intents[key].identifier; }
      o := CreateEffect(LabRequest(cfg, finding, identifier, key), a.found, Alone);
    }

    /** The request leaves. */
    method Send()
      requires process.Ready?
      modifies this`sends, this`process
      ensures Now() == Step(cfg, old(Now()), SendOut)
    {
      sends := sends + [Sent(process.request, InFlight)];
      process := Waiting(process.request, process.caller);
    }

    /** The outcome of a request becomes durable: the record, or the intent's new state. */
    method PersistOutcome()
      requires process.Answered? || process.Failed?
      modifies this`intents, this`created, this`process
      ensures Now() == Step(cfg, old(Now()), Persisted)
    {
      hide Resume;
      if process.Answered? {
        created := created + [process.request.draft.(number := process.number)];
        process := Resume(process.caller);
      } else {
        var key := process.request.key;
        if key in intents {
          intents := intents[key := intents[key].(state := if process.rejected then Reserved else Uncertain)];
        }
        process := Idle;
      }
    }

    /** The identifier loop of `consolidate_ir`. */
    method ResolveIdentifiers(sourceId: Id, wanted: seq<Id>, known: set<Id>) returns (r: Option<seq<Id>>)
      ensures r == Resolve(cfg, Now(), sourceId, wanted, known)
    {
      hide Resolve, After;
      var taken, ids: seq<Id> := known, [];
      assert wanted[0..] == wanted;
      AfterNone(Resolve(cfg, Now(), sourceId, wanted, known));
      var i := 0;
      while i < |wanted|
        invariant i <= |wanted|
        invariant Resolve(cfg, Now(), sourceId, wanted, known) == After(ids,
          Resolve(cfg, Now(), sourceId, wanted[i..], taken))
      {
        var id := wanted[i];
        if Choose(cfg, Now(), sourceId, id, taken).None? { ResolveFails(cfg, Now(), sourceId, wanted, i, taken, ids); }
        if id != "" {
          if !cfg.wellFormed(Ir, id) { return None; }
          if id in taken {
            var record := RecordByIdentifier(id);
            var linked := record.Some? && record.value.metadata.transferredFrom == sourceId;
            if !linked && !(id in intents && intents[id].identifier == id) { return None; }
          }
        } else {
          var reserved := cfg.reserve(Ir, taken);
          if reserved.None? { return None; }
          id := reserved.value;
        }
        ResolveOne(cfg, Now(), sourceId, wanted, i, taken, id);
        AfterOne(ids, id, Resolve(cfg, Now(), sourceId, wanted[i + 1..], taken + {id}));
        taken := taken + {id};
        ids := ids + [id];
        i := i + 1;
      }
      ResolveNone(cfg, Now(), sourceId, wanted[i..], taken, ids);
      return Some(ids);
    }

    /** `consolidate_ir` up to the gate: the whole plan is durable before the first remote effect. */
    method PlanConsolidation(scope: Scope, a: Answers) returns (ok: bool)
      requires process.Idle?
      modifies this`plans, this`process
      ensures Now() == Step(cfg, old(Now()), Planned(scope, a))
      ensures ok == (a.allowed && PlanFor(cfg, old(Now()), scope, a.remoteIds).Some?)
    {
      hide Resolve, PlanSound, Known;
      ok := false;
      var sourceId := cfg.strip(scope.source.identifier);
      var verdict := CheckPlan(cfg, scope);
      if !verdict.Sound? || sourceId in transfers { return; }
      if sourceId in plans && plans[sourceId].scope != scope { return; }
      var ids := ResolveIdentifiers(sourceId, Wanted(cfg, Now(), scope), Known(Now(), a.remoteIds) + {sourceId});
      if ids.None? { return; }
      plans := plans[sourceId := Plan(scope, ids.value)];
      if a.allowed {
        process := Creating(JobOf(cfg, scope, ids.value), 0);
        ok := true;
      }
    }

    /** The next successor is asked for, or the persisted records are gathered. */
    method CreateSuccessor(a: Answers)
      requires process.Creating? && SearchHonest(Now(), a.found)
      modifies this`intents, this`process
      ensures Now() == Step(cfg, old(Now()), Created(a))
    {
      hide AskForIssue, Identifiers, AllRecorded;
      var job, i := process.job, process.i;
      if i < |job.entries| {
        var entry := job.entries[i];
        var o := CreateIssue(Ir, entry.title, entry.identifier, entry.identifier,
                             Metadata(job.sourceId, entry.criteria, job.source.title), a, Within(job, i));
      } else {
        process := if AllRecorded(created, Identifiers(job)) then Verifying(job, 0) else Idle;
      }
    }

    /** One round of the verification, against the body just read, or the final coverage check. */
    method VerifySuccessor(body: Option<Body>)
      requires process.Verifying? && Enabled(Now(), Verified(body))
      modifies this`readBack, this`process
      ensures Now() == Step(cfg, old(Now()), Verified(body))
    {
      hide CoveredBy, ReadsBack, Identifiers, AllRecorded, Elements, NoRepeats, ByIdentifier;
      var job, k := process.job, process.k;
      if !AllRecorded(created, Identifiers(job)) { process := Idle; return; }
      if k < |job.entries| {
        VerifyRound(job, k, body);
      } else {
        var covered := CoveredBy(created, Identifiers(job));
        process := if Elements(covered) == Elements(job.remaining) && NoRepeats(covered) then Closing(job) else Idle;
      }
    }

    /** The link of one successor's record, and the body its issue was read back with. */
    method VerifyRound(job: Job, k: nat, body: Option<Body>)
      requires k < |job.entries| && AllRecorded(created, Identifiers(job))
      modifies this`readBack, this`process
      ensures Now() == Governance.Verify(old(Now()), job, k, body)
    {
      hide Identifiers, AllRecorded, ByIdentifier;
      var record := RecordByIdentifier(job.entries[k].identifier);
      process := Idle;
      if record.None? || record.value.metadata.transferredFrom != job.sourceId || body.None? { return; }
      readBack := readBack + {(record.value.number, body.value)};
      if body.value == record.value.expected { process := Verifying(job, k + 1); }
    }

    method CloseSource()
      requires process.Closing?
      modifies this`closes, this`process
      ensures Now() == Step(cfg, old(Now()), CloseRequested)
    {
      var job := process.job;
      var number := job.source.number;
      if number.None? {
        var record := RecordByIdentifier(job.sourceId);
        if record.Some? { number := Some(record.value.number); }
      }
      if number.None? { process := Idle; return; }
      closes := closes + {job.sourceId};
      process := CloseSent(job, number.value);
    }

    method RecordTransfer()
      requires process.Closed?
      modifies this`transfers, this`process
      ensures Now() == Step(cfg, old(Now()), TransferRecorded)
    {
      var job := process.job;
      transfers := transfers[job.sourceId := Transfer(Identifiers(job), job.remaining, process.number)];
      process := Idle;
    }
  }
}
