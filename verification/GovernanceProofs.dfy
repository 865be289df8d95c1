/** What every step of the governance client and of its environment keeps. */
module GovernanceProofs {
  import opened Common
  import opened Governance

  // ------------------------------------------------------------------ requests

  /** A create request for the key may be out or have taken effect. */
  predicate Committed(intents: map<Key, Intent>, key: Key) {
    key in intents && intents[key].state != Reserved
  }

  ghost predicate AllRefused(sends: seq<Sent>, key: Key) {
    forall i :: 0 <= i < |sends| && sends[i].request.key == key ==> sends[i].fate.Refused?
  }

  /** All earlier requests of a key were refused. */
  ghost predicate OnlyLastCounts(sends: seq<Sent>) {
    forall i, j :: 0 <= i < j < |sends| && sends[i].request.key == sends[j].request.key ==> sends[i].fate.Refused?
  }

  ghost predicate UnrefusedCommitted(sends: seq<Sent>, intents: map<Key, Intent>) {
    forall i :: 0 <= i < |sends| && !sends[i].fate.Refused? ==> Committed(intents, sends[i].request.key)
  }

  ghost predicate AppliedApart(sends: seq<Sent>, remote: seq<Issue>) {
    && (forall i :: 0 <= i < |sends| && sends[i].fate.Applied? ==> sends[i].fate.number < |remote|)
    && (forall i, j :: 0 <= i < j < |sends| && sends[i].fate.Applied? && sends[j].fate.Applied? ==>
         sends[i].fate.number != sends[j].fate.number)
  }

  ghost predicate SenderKnows(p: Process, sends: seq<Sent>, intents: map<Key, Intent>) {
    && (p.Ready? ==> Committed(intents, p.request.key) && AllRefused(sends, p.request.key))
    && (p.Waiting? ==> Committed(intents, p.request.key) && sends != [] && sends[|sends| - 1].request == p.request)
    && (p.Failed? && p.rejected ==> AllRefused(sends, p.request.key))
  }

  ghost predicate SendInv(s: State) {
    && OnlyLastCounts(s.sends)
    && UnrefusedCommitted(s.sends, s.intents)
    && AppliedApart(s.sends, s.remote)
    && SenderKnows(s.process, s.sends, s.intents)
  }

  /**
   The exact condition for a new request: no marked search hit can stand in for it, the search
   came back empty, and the key has no intent, or one with this very content that was refused.
   */
  lemma RequestExactlyWhen(s: State, req: Request, found: seq<nat>)
    requires SearchHonest(s, found)
    ensures CreateEffect(s, req, found) == Go(req) <==>
      && found == []
      && (req.key in s.intents ==> s.intents[req.key].content == req.content && s.intents[req.key].state == Reserved)
    ensures CreateEffect(s, req, found).Go? ==> CreateEffect(s, req, found) == Go(req)
  {}

  lemma GoIsFree(cfg: Config, s: State, ask: Ask, a: Answers)
    requires SearchHonest(s, a.found) && AskFor(cfg, s, ask, a).Go?
    ensures !Committed(s.intents, AskFor(cfg, s, ask, a).request.key)
  {
    hide Known, LabTaken, IssueRequest, LabRequest;
  }

  lemma FreeIsRefused(s: State, key: Key)
    requires SendInv(s) && !Committed(s.intents, key)
    ensures AllRefused(s.sends, key)
  {
    assert UnrefusedCommitted(s.sends, s.intents);
  }

  lemma GoSends(s: State, req: Request, caller: Caller)
    requires SendInv(s) && !Committed(s.intents, req.key)
    ensures SendInv(Begin(s, Go(req), caller))
  {
    hide AppliedApart, OnlyLastCounts;
    var t := Begin(s, Go(req), caller);
    FreeIsRefused(s, req.key);
    forall i | 0 <= i < |t.sends| && !t.sends[i].fate.Refused? ensures Committed(t.intents, t.sends[i].request.key) {
      assert Committed(s.intents, s.sends[i].request.key);
    }
  }

  lemma BeginSends(s: State, o: Outcome, caller: Caller)
    requires SendInv(s) && (o.Go? ==> !Committed(s.intents, o.request.key))
    ensures SendInv(Begin(s, o, caller))
  {
    if o.Go? {
      hide SendInv, Begin;
      GoSends(s, o.request, caller);
    } else {
      hide AppliedApart, OnlyLastCounts, UnrefusedCommitted, AllRefused;
    }
  }

  lemma SettleSends(s: State, i: nat, fate: Fate)
    requires SendInv(s) && i < |s.sends| && s.sends[i].fate.InFlight? && !fate.Applied?
    requires s.process.Waiting? || !fate.Refused?
    ensures SendInv(Settle(s, i, fate))
  {}

  lemma DeliverSends(s: State, i: nat)
    requires SendInv(s) && i < |s.sends| && s.sends[i].fate.InFlight?
    ensures SendInv(Deliver(s, i))
  {}

  lemma SendOutSends(s: State)
    requires SendInv(s) && s.process.Ready?
    ensures SendInv(s.(sends := s.sends + [Sent(s.process.request, InFlight)],
      process := Waiting(s.process.request, s.process.caller)))
  {}

  lemma RejectedSends(s: State)
    requires SendInv(s) && s.process.Waiting? && s.sends[|s.sends| - 1].fate.InFlight?
    ensures SendInv(Settle(s, |s.sends| - 1, Refused).(process := Failed(s.process.request, true)))
  {
    SettleSends(s, |s.sends| - 1, Refused);
  }

  lemma PersistSends(s: State)
    requires SendInv(s) && (s.process.Answered? || s.process.Failed?)
    ensures SendInv(Persist(s))
  {}

  /** A step that touches neither the requests nor the intents. */
  predicate Apart(s: State, t: State) {
    && t.sends == s.sends && t.intents == s.intents && |t.remote| >= |s.remote|
    && (t.process == s.process ||
        !(t.process.Ready? || t.process.Waiting? || (t.process.Failed? && t.process.rejected)))
  }

  lemma ApartSends(s: State, t: State)
    requires SendInv(s) && Apart(s, t)
    ensures SendInv(t)
  {}

  /** A step of a consolidation, or a crash: neither the remote nor any request or record changes. */
  predicate Quiet(s: State, t: State) {
    && t.intents == s.intents && t.created == s.created && t.sends == s.sends && t.remote == s.remote
    && t.held == s.held && t.shut == s.shut && s.readBack <= t.readBack && s.closes <= t.closes
    && !HasRequest(t.process)
  }

  predicate HasRequest(p: Process) {
    p.Ready? || p.Waiting? || p.Answered? || p.Failed?
  }

  predicate Consolidates(e: Event) {
    e.Crash? || e.Planned? || e.Verified? || e.CloseRequested? || e.CloseReply? || e.TransferRecorded?
  }

  lemma QuietVerify(s: State, job: Job, k: nat, body: Option<Body>)
    ensures Quiet(s, Verify(s, job, k, body))
  {
    hide Identifiers, AllRecorded, CoveredBy, Elements, NoRepeats, ByIdentifier;
  }

  lemma QuietPlan(cfg: Config, s: State, scope: Scope, a: Answers)
    requires s.process.Idle?
    ensures Quiet(s, PlanTransfer(cfg, s, scope, a))
  {
    hide PlanFor, JobOf;
  }

  lemma QuietStep(cfg: Config, s: State, e: Event)
    requires Enabled(s, e) && Consolidates(e)
    ensures Quiet(s, Step(cfg, s, e))
  {
    hide PlanTransfer, Verify, SourceNumber, Identifiers;
    match e
    case Planned(scope, a) => QuietPlan(cfg, s, scope, a);
    case Verified(body) => QuietVerify(s, s.process.job, s.process.k, body);
    case _ =>
  }

  /** The events of `Apart`. */
  predicate Bystander(e: Event) {
    e.Opened? || e.Edited? || e.CreatedReply? || e.NoReply? || Consolidates(e)
  }

  lemma BystanderIsApart(cfg: Config, s: State, e: Event)
    requires Enabled(s, e) && Bystander(e)
    ensures Apart(s, Step(cfg, s, e))
  {
    if Consolidates(e) {
      hide Step;
      QuietStep(cfg, s, e);
    }
  }

  lemma SendStep(cfg: Config, s: State, e: Event)
    requires SendInv(s) && Enabled(s, e)
    ensures SendInv(Step(cfg, s, e))
  {
    if Bystander(e) {
      BystanderIsApart(cfg, s, e);
      ApartSends(s, Step(cfg, s, e));
    } else {
      SendStepOther(cfg, s, e);
    }
  }

  lemma SendStepOther(cfg: Config, s: State, e: Event)
    requires SendInv(s) && Enabled(s, e) && !Bystander(e)
    ensures SendInv(Step(cfg, s, e))
  {
    hide AskFor, Begin, Settle, Deliver, Persist, OnlyLastCounts, UnrefusedCommitted, AppliedApart, AllRefused,
        Identifiers, AllRecorded;
    match e
    case Delivered(i) => DeliverSends(s, i);
    case Lost(i) => SettleSends(s, i, Dropped);
    case Asked(ask, a) =>
      if AskFor(cfg, s, ask, a).Go? { GoIsFree(cfg, s, ask, a); }
      BeginSends(s, AskFor(cfg, s, ask, a), Alone);
    case SendOut => SendOutSends(s);
    case RejectedReply => RejectedSends(s);
    case Persisted => PersistSends(s);
    case Created(a) =>
      var job, i := s.process.job, s.process.i;
      if i < |job.entries| {
        var ask := SuccessorAsk(job, i);
        if AskFor(cfg, s, ask, a).Go? { GoIsFree(cfg, s, ask, a); }
        BeginSends(s, AskFor(cfg, s, ask, a), Within(job, i));
      } else {
        ApartSends(s, CreateNext(cfg, s, job, i, a));
      }
  }

  // ------------------------------------------------------------------ records

  /** The record describes the very content that was published for it. */
  predicate Describes(cfg: Config, content: Content, r: Record) {
    && r.expected == Complete(r.key, content)
    && if r.kind == Lab then
         r.finding.Some? && content == Content(r.labId, r.finding.value.title,
             cfg.renderLab(r.finding.value, r.labId), Lab)
       else content == Content(r.identifier, r.title, cfg.renderIssue(r.kind, r.title, r.identifier, r.metadata),
           r.kind)
  }

  /** The record is backed by its intent, and its issue had exactly the expected body. */
  predicate Backed(cfg: Config, intents: map<Key, Intent>, held: set<(nat, Body)>, r: Record) {
    && r.key in intents && Describes(cfg, intents[r.key].content, r)
    && (r.number, r.expected) in held
  }

  ghost predicate AllBacked(cfg: Config, intents: map<Key, Intent>, held: set<(nat, Body)>, created: seq<Record>) {
    forall i :: 0 <= i < |created| ==> Backed(cfg, intents, held, created[i])
  }

  ghost predicate OnePerKey(created: seq<Record>) {
    forall i, j :: 0 <= i < j < |created| ==> created[i].key != created[j].key
  }

  ghost predicate HistoryKept(s: State) {
    && (forall n :: 0 <= n < |s.remote| ==> (n, s.remote[n].body) in s.held && (!s.remote[n].open ==> n in s.shut))
    && (forall i :: 0 <= i < |s.sends| && s.sends[i].fate.Applied? ==>
         (s.sends[i].fate.number, Complete(s.sends[i].request.key, s.sends[i].request.content)) in s.held)
  }

  ghost predicate NumbersMatch(intents: map<Key, Intent>) {
    forall key :: key in intents ==> intents[key].identifier == intents[key].content.identifier
  }

  predicate RequestKept(cfg: Config, s: State, req: Request) {
    && req.draft.key == req.key && Describes(cfg, req.content, req.draft)
    && req.key in s.intents && s.intents[req.key].content == req.content
  }

  ghost predicate RequestInv(cfg: Config, s: State) {
    HasRequest(s.process) ==>
      && RequestKept(cfg, s, s.process.request)
      && (!s.process.Failed? ==> ByKey(s.created, s.process.request.key).None?)
      && (s.process.Waiting? ==> s.sends != [] && s.sends[|s.sends| - 1].request == s.process.request)
      && (s.process.Answered? ==> (s.process.number, s.process.request.draft.expected) in s.held)
  }

  ghost predicate RecordInv(cfg: Config, s: State) {
    && AllBacked(cfg, s.intents, s.held, s.created)
    && OnePerKey(s.created)
    && HistoryKept(s)
    && NumbersMatch(s.intents)
    && RequestInv(cfg, s)
  }

  /** Intents keep their contents, and histories only grow. */
  ghost predicate Grows(s: State, t: State) {
    && (forall key :: key in s.intents ==> key in t.intents && t.intents[key].content == s.intents[key].content)
    && s.held <= t.held && s.shut <= t.shut && s.readBack <= t.readBack && s.closes <= t.closes
    && s.created <= t.created
  }

  lemma BackedGrows(cfg: Config, s: State, t: State)
    requires AllBacked(cfg, s.intents, s.held, s.created) && Grows(s, t) && t.created == s.created
    ensures AllBacked(cfg, t.intents, t.held, t.created)
  {
    hide Describes;
  }

  /** What a creation call knows of the request it is about to make or has found published. */
  predicate Prepared(cfg: Config, s: State, o: Outcome) {
    && (o.Go? || o.Recovered? ==>
         && o.request.draft.key == o.request.key && Describes(cfg, o.request.content, o.request.draft)
         && ByKey(s.created, o.request.key).None?
         && (o.request.key in s.intents ==> s.intents[o.request.key].content == o.request.content))
    && (o.Recovered? ==>
         && o.request.key in s.intents && o.number < |s.remote|
         && s.remote[o.number].body == o.request.draft.expected)
  }

  lemma EffectPrepared(cfg: Config, s: State, req: Request, found: seq<nat>)
    requires SearchHonest(s, found) && req.draft.key == req.key && Describes(cfg, req.content, req.draft)
    requires ByKey(s.created, req.key).None?
    ensures Prepared(cfg, s, CreateEffect(s, req, found))
  {
    hide Describes, FindMarked;
  }

  lemma AskPrepared(cfg: Config, s: State, ask: Ask, a: Answers)
    requires SearchHonest(s, a.found)
    ensures Prepared(cfg, s, AskFor(cfg, s, ask, a))
  {
    hide Known, LabTaken, CreateEffect, ByKey, SearchHonest;
    match ask
    case AskIssue(kind, title, id, key, metadata) => IssuePrepared(cfg, s, kind, title, id, key, metadata, a);
    case AskLab(finding, key0) =>
      var key := LabKey(finding, key0);
      var reserved := cfg.reserve(Lab, LabTaken(s, a.remoteIds));
      var id := if key in s.intents then s.intents[key].identifier else if reserved.Some? then reserved.value else key;
      if ByKey(s.created, key).None? { EffectPrepared(cfg, s, LabRequest(cfg, finding, id, key), a.found); }
  }

  lemma IssuePrepared(cfg: Config, s: State, kind: Kind, title0: string, id0: Id, key0: Key, metadata: Metadata,
      a: Answers)
    requires SearchHonest(s, a.found)
    ensures Prepared(cfg, s, AskForIssue(cfg, s, kind, title0, id0, key0, metadata, a))
  {
    hide Known, CreateEffect, ByKey, SearchHonest, Describes, IssueRequest;
    var o := AskForIssue(cfg, s, kind, title0, id0, key0, metadata, a);
    var title, wanted := cfg.strip(title0), cfg.strip(id0);
    var key := if cfg.strip(key0) != "" then cfg.strip(key0) else if wanted != "" then wanted else title;
    if kind != Lab && ByKey(s.created, key).None? {
      var taken := Known(s, a.remoteIds);
      var id := if wanted == "" && key in s.intents then s.intents[key].identifier else wanted;
      var chosen := if id != "" then Some(id) else cfg.reserve(kind, taken);
      if chosen.Some? {
        IssueRequestDescribed(cfg, kind, title, chosen.value, key, metadata);
        EffectPrepared(cfg, s, IssueRequest(cfg, kind, title, chosen.value, key, metadata), a.found);
      }
    }
  }

  lemma IssueRequestDescribed(cfg: Config, kind: Kind, title: string, id: Id, key: Key, metadata: Metadata)
    requires kind != Lab
    ensures var req := IssueRequest(cfg, kind, title, id, key, metadata);
      req.key == key && req.draft.key == key && Describes(cfg, req.content, req.draft)
  {}

  lemma GoRecords(cfg: Config, s: State, req: Request, caller: Caller)
    requires RecordInv(cfg, s) && Prepared(cfg, s, Go(req))
    ensures RecordInv(cfg, Begin(s, Go(req), caller)) && Grows(s, Begin(s, Go(req), caller))
  {
    hide Describes, AllBacked, OnePerKey, ByKey;
    BackedGrows(cfg, s, Begin(s, Go(req), caller));
  }

  lemma BeginRecords(cfg: Config, s: State, o: Outcome, caller: Caller)
    requires RecordInv(cfg, s) && Prepared(cfg, s, o)
    ensures RecordInv(cfg, Begin(s, o, caller)) && Grows(s, Begin(s, o, caller))
  {
    if o.Go? {
      hide RecordInv, Prepared, Grows, Begin;
      GoRecords(cfg, s, o.request, caller);
    } else {
      hide Describes, AllBacked, OnePerKey, ByKey, NumbersMatch;
    }
  }

  lemma FailureRecords(cfg: Config, s: State)
    requires RecordInv(cfg, s) && s.process.Failed?
    ensures RecordInv(cfg, Persist(s)) && Grows(s, Persist(s))
  {
    hide Describes, AllBacked, OnePerKey;
    BackedGrows(cfg, s, Persist(s));
  }

  lemma PersistRecords(cfg: Config, s: State)
    requires RecordInv(cfg, s) && (s.process.Answered? || s.process.Failed?)
    ensures RecordInv(cfg, Persist(s)) && Grows(s, Persist(s))
  {
    hide Describes;
    if s.process.Failed? {
      hide RecordInv, Grows;
      FailureRecords(cfg, s);
    } else {
      hide NumbersMatch;
      var t := Persist(s);
      var r := s.process.request.draft.(number := s.process.number);
      DescribesAnyNumber(cfg, s.process.request.content, s.process.request.draft, s.process.number);
      assert Backed(cfg, t.intents, t.held, r);
    }
  }

  lemma DescribesAnyNumber(cfg: Config, content: Content, r: Record, n: nat)
    requires Describes(cfg, content, r)
    ensures Describes(cfg, content, r.(number := n)) && r.(number := n).expected == r.expected
  {}

  /** A step that changes no record and no intent, and no request but to drop it. */
  ghost predicate Still(s: State, t: State) {
    && t.intents == s.intents && t.created == s.created
    && s.held <= t.held && s.shut <= t.shut && s.readBack <= t.readBack && s.closes <= t.closes
    && (HasRequest(t.process) ==> HasRequest(s.process) && t.process.request == s.process.request)
    && (HasRequest(t.process) && !t.process.Failed? ==> !s.process.Failed?)
    && (t.process.Waiting? ==> t.sends != [] && t.sends[|t.sends| - 1].request == t.process.request)
    && (t.process.Answered? ==> (t.process.number, t.process.request.draft.expected) in t.held)
  }

  lemma StillRecords(cfg: Config, s: State, t: State)
    requires RecordInv(cfg, s) && Still(s, t) && HistoryKept(t)
    ensures RecordInv(cfg, t) && Grows(s, t)
  {
    hide Describes, OnePerKey;
    BackedGrows(cfg, s, t);
  }

  predicate Creates(e: Event) {
    e.Asked? || e.Created? || e.Persisted?
  }

  /** The remote changes: by another hand, or because a request arrives. */
  predicate Remote(e: Event) {
    e.Opened? || e.Edited? || e.Delivered? || e.Lost?
  }

  lemma SettleStill(cfg: Config, s: State, i: nat, fate: Fate)
    requires RequestInv(cfg, s) && HistoryKept(s) && i < |s.sends|
    requires fate.Applied? ==> (fate.number, Complete(s.sends[i].request.key, s.sends[i].request.content)) in s.held
    ensures RequestInv(cfg, Settle(s, i, fate)) && Still(s, Settle(s, i, fate)) && HistoryKept(Settle(s, i, fate))
  {
    hide Describes;
  }

  lemma PublishStill(cfg: Config, s: State, issue: Issue)
    requires RequestInv(cfg, s) && HistoryKept(s)
    ensures RequestInv(cfg, Publish(s, issue)) && Still(s, Publish(s, issue)) && HistoryKept(Publish(s, issue))
  {
    hide Describes;
  }

  lemma EditStill(cfg: Config, s: State, n: nat, issue: Issue)
    requires RequestInv(cfg, s) && HistoryKept(s) && n < |s.remote|
    ensures Still(s, Edit(s, n, issue)) && HistoryKept(Edit(s, n, issue))
  {
    hide Describes;
  }

  lemma DeliverStill(cfg: Config, s: State, i: nat)
    requires RequestInv(cfg, s) && HistoryKept(s) && i < |s.sends|
    ensures Still(s, Deliver(s, i)) && HistoryKept(Deliver(s, i))
  {
    hide HistoryKept, RequestInv;
    var req := s.sends[i].request;
    var issue := Issue(FullTitle(req.content), Complete(req.key, req.content), true);
    PublishStill(cfg, s, issue);
    SettleStill(cfg, Publish(s, issue), i, Applied(|s.remote|));
  }

  lemma RemoteStill(cfg: Config, s: State, e: Event)
    requires RecordInv(cfg, s) && Enabled(s, e) && Remote(e)
    ensures Still(s, Step(cfg, s, e)) && HistoryKept(Step(cfg, s, e))
  {
    hide Publish, Edit, Deliver, Settle, HistoryKept, RequestInv, Still;
    match e
    case Opened(issue) => PublishStill(cfg, s, issue);
    case Edited(n, issue) => EditStill(cfg, s, n, issue);
    case Delivered(i) => DeliverStill(cfg, s, i);
    case Lost(i) => SettleStill(cfg, s, i, Dropped);
  }

  /** A request is still the last one sent when its answer comes. */
  lemma ReplyStill(cfg: Config, s: State, e: Event)
    requires RecordInv(cfg, s) && Enabled(s, e) && (e.SendOut? || e.CreatedReply? || e.RejectedReply? || e.NoReply?)
    ensures Still(s, Step(cfg, s, e)) && HistoryKept(Step(cfg, s, e))
  {
    hide AllBacked, OnePerKey, NumbersMatch, ByKey;
  }

  lemma OtherStill(cfg: Config, s: State, e: Event)
    requires RecordInv(cfg, s) && Enabled(s, e) && !Creates(e)
    ensures Still(s, Step(cfg, s, e)) && HistoryKept(Step(cfg, s, e))
  {
    if Remote(e) {
      RemoteStill(cfg, s, e);
    } else if e.SendOut? || e.CreatedReply? || e.RejectedReply? || e.NoReply? {
      ReplyStill(cfg, s, e);
    } else {
      ConsolidateStill(cfg, s, e);
    }
  }

  lemma QuietStill(s: State, t: State)
    requires HistoryKept(s) && Quiet(s, t)
    ensures Still(s, t) && HistoryKept(t)
  {}

  lemma ConsolidateStill(cfg: Config, s: State, e: Event)
    requires RecordInv(cfg, s) && Enabled(s, e) && Consolidates(e)
    ensures Still(s, Step(cfg, s, e)) && HistoryKept(Step(cfg, s, e))
  {
    hide Step, Still, HistoryKept, AllBacked, OnePerKey, NumbersMatch, RequestInv, Quiet, Enabled;
    QuietStep(cfg, s, e);
    QuietStill(s, Step(cfg, s, e));
  }

  lemma RecordStep(cfg: Config, s: State, e: Event)
    requires RecordInv(cfg, s) && Enabled(s, e)
    ensures RecordInv(cfg, Step(cfg, s, e)) && Grows(s, Step(cfg, s, e))
  {
    hide AskFor, Begin, Persist, RecordInv, HistoryKept, Still, Identifiers, AllRecorded;
    if !Creates(e) {
      OtherStill(cfg, s, e);
      StillRecords(cfg, s, Step(cfg, s, e));
    } else {
      match e
      case Asked(ask, a) =>
        AskPrepared(cfg, s, ask, a);
        BeginRecords(cfg, s, AskFor(cfg, s, ask, a), Alone);
      case Persisted => PersistRecords(cfg, s);
      case Created(a) => CreateNextRecords(cfg, s, s.process.job, s.process.i, a);
    }
  }

  lemma CreateNextRecords(cfg: Config, s: State, job: Job, i: nat, a: Answers)
    requires RecordInv(cfg, s) && SearchHonest(s, a.found)
    ensures RecordInv(cfg, CreateNext(cfg, s, job, i, a)) && Grows(s, CreateNext(cfg, s, job, i, a))
  {
    hide AskFor, Begin, Identifiers, AllRecorded, AllBacked, OnePerKey, NumbersMatch;
    if i < |job.entries| {
      AskPrepared(cfg, s, SuccessorAsk(job, i), a);
      BeginRecords(cfg, s, AskFor(cfg, s, SuccessorAsk(job, i), a), Within(job, i));
    }
  }
}
