/**
 The laboratory's issue governance, lab/governance.py: a client that opens issues on a remote
 server over an unreliable channel. The state holds the client's durable files, the remote
 issues, every request ever sent with its fate, and where the running call stands. One event is
 one durable write, one message or one answer, and the process may crash between any two.
 */
module Governance {
  import opened Common

  type Id = string
  type Key = string

  datatype Kind = Lab | I | Ir | Var

  /** `metadata` of a record; a missing entry is empty. */
  datatype Metadata = Metadata(transferredFrom: Id, criteria: seq<string>, rest: string)

  const NO_METADATA := Metadata("", [], "")

  datatype Finding = Finding(identifier: Id, title: string, rest: string)

  /** What a create request publishes; equal contents are what equal content hashes stand for. */
  datatype Content = Content(identifier: Id, title: string, text: string, tag: Kind)

  /** The operation marker appended to a body: the digest of the key and the content. */
  datatype Mark = Mark(key: Key, content: Content)

  datatype Body = Body(text: string, marks: seq<Mark>)

  datatype Issue = Issue(title: string, body: Body, open: bool)

  datatype IntentState = Sending | Uncertain | Reserved

  datatype Intent = Intent(identifier: Id, content: Content, state: IntentState)

  /** An entry of created-issues.json. A `lab` record has no identifier, title or metadata. */
  datatype Record = Record(
    key: Key, identifier: Id, labId: Id, kind: Kind, title: string, finding: Option<Finding>,
    metadata: Metadata, number: nat, expected: Body)

  datatype Source = Source(identifier: Id, title: string, remaining: seq<string>, number: Option<nat>, rest: string)

  datatype Successor = Successor(identifier: Id, title: string, criteria: seq<string>, rest: string)

  /** Everything a consolidation call is given; its digest guards retries. */
  datatype Scope = Scope(source: Source, successors: seq<Successor>, reason: string)

  datatype Plan = Plan(scope: Scope, identifiers: seq<Id>)

  datatype Transfer = Transfer(successors: seq<Id>, remaining: seq<string>, number: nat)

  /** What became of a create request. */
  datatype Fate = InFlight | Applied(number: nat) | Refused | Dropped

  /** A create request, with the record to persist once it is known to be published. */
  datatype Request = Request(key: Key, content: Content, draft: Record)

  datatype Sent = Sent(request: Request, fate: Fate)

  datatype Entry = Entry(title: string, criteria: seq<string>, identifier: Id)

  datatype Job = Job(source: Source, sourceId: Id, remaining: seq<string>, entries: seq<Entry>)

  /** Whom a creation returns to. */
  datatype Caller = Alone | Within(job: Job, i: nat)

  datatype Process =
    | Idle
    | Ready(request: Request, caller: Caller)
    | Waiting(request: Request, caller: Caller)
    | Answered(request: Request, number: nat, caller: Caller)
    | Failed(request: Request, rejected: bool)
    | Creating(job: Job, i: nat)
    | Verifying(job: Job, k: nat)
    | Closing(job: Job)
    | CloseSent(job: Job, number: nat)
    | Closed(job: Job, number: nat)

  /**
   `held` and `shut` are the remote's history: which body each issue ever had, and which were
   ever closed. `readBack` are the bodies the client read back while verifying a transfer, and
   `closes` the sources for which it ever requested a close.
   */
  datatype State = State(
    intents: map<Key, Intent>, created: seq<Record>, plans: map<Id, Plan>, transfers: map<Id, Transfer>,
    remote: seq<Issue>, sends: seq<Sent>, held: set<(nat, Body)>, shut: set<nat>,
    readBack: set<(nat, Body)>, closes: set<Id>,
    process: Process)

  /** Text functions the operations rely on but do not define. */
  datatype Config = Config(
    strip: string -> string,
    wellFormed: (Kind, Id) -> bool,
    reserve: (Kind, set<Id>) -> Option<Id>,
    valid: Finding -> bool,
    renderIssue: (Kind, string, Id, Metadata) -> string,
    renderLab: (Finding, Id) -> string)

  /** A reservation is an unused, non-empty, trimmed identifier; trimming twice is trimming once. */
  ghost predicate Fair(cfg: Config) {
    && (forall x :: cfg.strip(cfg.strip(x)) == cfg.strip(x))
    && (forall kind, taken :: GoodReservation(cfg, kind, taken))
  }

  ghost predicate GoodReservation(cfg: Config, kind: Kind, taken: set<Id>) {
    var r := cfg.reserve(kind, taken);
    r.Some? ==> r.value !in taken && r.value != "" && cfg.strip(r.value) == r.value
  }

  // ------------------------------------------------------------------ looking things up

  function Complete(key: Key, content: Content): Body {
    Body(content.text, [Mark(key, content)])
  }

  function FullTitle(content: Content): string {
    content.identifier + " \U{2014} " + content.title
  }

  /** `_already_created`: the first record of a key. */
  function ByKey(created: seq<Record>, key: Key): (r: Option<Record>)
    ensures r.Some? ==> r.value in created && r.value.key == key
    ensures r.None? <==> forall i :: 0 <= i < |created| ==> created[i].key != key
  {
    if created == [] then None
    else if created[0].key == key then Some(created[0]) else ByKey(created[1..], key)
  }

  /** `_record_by_identifier`: the first record of an identifier. */
  function ByIdentifier(created: seq<Record>, id: Id): (r: Option<Record>)
    ensures r.Some? ==> r.value in created && r.value.identifier == id
    ensures r.None? <==> forall i :: 0 <= i < |created| ==> created[i].identifier != id
  {
    if created == [] then None
    else if created[0].identifier == id then Some(created[0]) else ByIdentifier(created[1..], id)
  }

  /** `known_identifiers`, given the inventory the remote answered with. */
  function Known(s: State, remoteIds: set<Id>): set<Id> {
    remoteIds
    + (set key | key in s.intents :: s.intents[key].identifier)
    + (set r | r in s.created :: r.identifier)
    + (set r | r in s.created && r.finding.Some? :: r.finding.value.identifier)
  }

  /** What `propose_lab_issue` adds to them: the records' lab numbers and keys. */
  function LabTaken(s: State, remoteIds: set<Id>): set<Id> {
    Known(s, remoteIds) + (set r | r in s.created :: r.labId) + (set r | r in s.created :: r.key)
  }

  predicate Marked(issue: Issue, key: Key, content: Content) {
    issue.title == FullTitle(content) && Mark(key, content) in issue.body.marks
  }

  /** The first search hit that carries the operation's marker. */
  function FindMarked(remote: seq<Issue>, found: seq<nat>, key: Key, content: Content): (r: Option<nat>)
    requires forall i :: 0 <= i < |found| ==> found[i] < |remote|
    ensures r.Some? ==> r.value in found && r.value < |remote| && Marked(remote[r.value], key, content)
    ensures r.None? ==> forall i :: 0 <= i < |found| ==> !Marked(remote[found[i]], key, content)
  {
    if found == [] then None
    else if Marked(remote[found[0]], key, content) then Some(found[0])
    else FindMarked(remote, found[1..], key, content)
  }

  // ------------------------------------------------------------------ creating an issue

  datatype Refusal =
    | ScopeChanged | BodyChanged | Unconfirmed | InvalidKind | NoTitle | Malformed | Exhausted | InvalidFinding

  /** How a creation call ends, or how it goes on. */
  datatype Outcome =
    | AlreadyCreated(record: Record)
    | Denied
    | IdentifierUsed
    | Duplicate
    | Raised(why: Refusal)
    | Recovered(request: Request, number: nat)
    | Go(request: Request)

  /** What the gate and the remote answer while a call prepares its request. */
  datatype Answers = Answers(allowed: bool, remoteIds: set<Id>, found: seq<nat>)

  predicate SearchHonest(s: State, found: seq<nat>) {
    forall i :: 0 <= i < |found| ==> found[i] < |s.remote|
  }

  /** `_create_effect`, up to the request */
  function CreateEffect(s: State, req: Request, found: seq<nat>): Outcome
    requires SearchHonest(s, found)
  {
    var prior := req.key in s.intents;
    if prior && s.intents[req.key].content != req.content then Raised(ScopeChanged)
    else
      var hit := if prior then FindMarked(s.remote, found, req.key, req.content) else None;
      if hit.Some? then
        if s.remote[hit.value].body != req.draft.expected then Raised(BodyChanged) else Recovered(req, hit.value)
      else if prior && s.intents[req.key].state != Reserved then Raised(Unconfirmed)
      else if found != [] then Duplicate
      else Go(req)
  }

  datatype Ask =
    | AskIssue(kind: Kind, title: string, identifier: Id, key: Key, metadata: Metadata)
    | AskLab(finding: Finding, key: Key)

  function IssueRequest(cfg: Config, kind: Kind, title: string, id: Id, key: Key, metadata: Metadata): Request {
    var content := Content(id, title, cfg.renderIssue(kind, title, id, metadata), kind);
    Request(key, content, Record(key, id, "", kind, title, None, metadata, 0, Complete(key, content)))
  }

  function LabRequest(cfg: Config, finding: Finding, id: Id, key: Key): Request {
    var content := Content(id, finding.title, cfg.renderLab(finding, id), Lab);
    Request(key, content, Record(key, "", id, Lab, "", Some(finding), NO_METADATA, 0, Complete(key, content)))
  }

  /** The numeric reservation of `create_issue`, and the request under it. */
  function AskNumbered(cfg: Config, s: State, kind: Kind, title: string, wanted: Id, key: Key, metadata: Metadata,
      a: Answers): Outcome
    requires SearchHonest(s, a.found)
  {
    var taken := Known(s, a.remoteIds);
    var pending := key in s.intents;
    var id := if wanted == "" && pending then s.intents[key].identifier else wanted;
    if id != "" && !cfg.wellFormed(kind, id) then Raised(Malformed)
    else if id != "" && id in taken && !(pending && s.intents[key].identifier == id) then IdentifierUsed
    else
      var chosen := if id != "" then Some(id) else cfg.reserve(kind, taken);
      if chosen.None? then Raised(Exhausted)
      else CreateEffect(s, IssueRequest(cfg, kind, title, chosen.value, key, metadata), a.found)
  }

  /** `create_issue`, up to the request */
  function AskForIssue(cfg: Config, s: State, kind: Kind, title0: string, id0: Id, key0: Key, metadata: Metadata,
      a: Answers): Outcome
    requires SearchHonest(s, a.found)
  {
    var title, wanted := cfg.strip(title0), cfg.strip(id0);
    if kind == Lab then Raised(InvalidKind)
    else if title == "" then Raised(NoTitle)
    else
      var subject := if wanted != "" then wanted else title;
      var key := if cfg.strip(key0) != "" then cfg.strip(key0) else subject;
      var existing := ByKey(s.created, key);
      if existing.Some? then
        var r := existing.value;
        if r.title != title || r.kind != kind || (wanted != "" && r.identifier != wanted) || r.metadata != metadata
        then Raised(ScopeChanged) else AlreadyCreated(r)
      else if !a.allowed then Denied
      else AskNumbered(cfg, s, kind, title, wanted, key, metadata, a)
  }

  function LabKey(finding: Finding, key: Key): Key {
    if key != "" then key
    else if finding.identifier != "" then finding.identifier
    else if |finding.title| <= 80 then finding.title else finding.title[..80]
  }

  /** `propose_lab_issue`, up to the request */
  function AskForLab(cfg: Config, s: State, finding: Finding, key0: Key, a: Answers): Outcome
    requires SearchHonest(s, a.found)
  {
    var key := LabKey(finding, key0);
    var existing := ByKey(s.created, key);
    if existing.Some? then
      if existing.value.finding != Some(finding) then Raised(ScopeChanged) else AlreadyCreated(existing.value)
    else if !cfg.valid(finding) then Raised(InvalidFinding)
    else if !a.allowed then Denied
    else
      var reserved := cfg.reserve(Lab, LabTaken(s, a.remoteIds));
      var id := if key in s.intents then s.intents[key].identifier else if reserved.Some? then reserved.value else key;
      CreateEffect(s, LabRequest(cfg, finding, id, key), a.found)
  }

  function AskFor(cfg: Config, s: State, ask: Ask, a: Answers): Outcome
    requires SearchHonest(s, a.found)
  {
    match ask
    case AskIssue(kind, title, id, key, metadata) => AskForIssue(cfg, s, kind, title, id, key, metadata, a)
    case AskLab(finding, key) => AskForLab(cfg, s, finding, key, a)
  }

  /** The call's next durable write or its return, given how it was answered. */
  function Begin(s: State, o: Outcome, caller: Caller): State {
    match o
    case Go(req) =>
      s.(intents := s.intents[req.key := Intent(req.content.identifier, req.content, Sending)],
          process := Ready(req, caller))
    case Recovered(req, number) => s.(process := Answered(req, number, caller))
    case Denied => s.(process := Idle)
    case Raised(_) => s.(process := Idle)
    case _ => s.(process := Resume(caller))
  }

  /** A creation that returned normally: a consolidation goes on to its next successor. */
  function Resume(caller: Caller): Process {
    if caller.Alone? then Idle else Creating(caller.job, caller.i + 1)
  }

  function Persist(s: State): State {
    match s.process
    case Answered(req, number, caller) =>
      s.(created := s.created + [req.draft.(number := number)], process := Resume(caller))
    case Failed(req, rejected) =>
      if req.key in s.intents
      then s.(intents := s.intents[req.key := s.intents[req.key].(state := if rejected then Reserved else Uncertain)],
          process := Idle)
      else s.(process := Idle)
    case _ => s
  }

  // ------------------------------------------------------------------ consolidating

  function Clean(cfg: Config, items: seq<string>): seq<string> {
    if items == [] then []
    else
      var x := cfg.strip(items[|items| - 1]);
      Clean(cfg, items[..|items| - 1]) + if x != "" then [x] else []
  }

  function Elements(items: seq<string>): set<string> {
    set x | x in items
  }

  predicate NoRepeats(items: seq<string>) {
    forall i, j :: 0 <= i < j < |items| ==> items[i] != items[j]
  }

  function Titles(cfg: Config, successors: seq<Successor>): seq<string> {
    seq(|successors|, i requires 0 <= i < |successors| => cfg.strip(successors[i].title))
  }

  /** All transferred criteria, successor after successor. */
  function Transferred(cfg: Config, successors: seq<Successor>): seq<string> {
    if successors == [] then []
    else Transferred(cfg, successors[..|successors| - 1]) + Clean(cfg, successors[|successors| - 1].criteria)
  }

  /** The plan's checks: titled successors, each with criteria, that together take every criterion exactly once. */
  predicate PlanSound(cfg: Config, scope: Scope) {
    var remaining := Clean(cfg, scope.source.remaining);
    && cfg.strip(scope.source.identifier) != ""
    && remaining != []
    && scope.successors != []
    && (forall i :: 0 <= i < |scope.successors| ==>
         cfg.strip(scope.successors[i].title) != "" && Clean(cfg, scope.successors[i].criteria) != [])
    && NoRepeats(Titles(cfg, scope.successors))
    && Elements(Transferred(cfg, scope.successors)) == Elements(remaining)
    && NoRepeats(Transferred(cfg, scope.successors))
  }

  /** A taken identifier that an earlier attempt of the same transfer, or its own intent, holds. */
  predicate Ours(s: State, sourceId: Id, id: Id) {
    || (ByIdentifier(s.created, id).Some? && ByIdentifier(s.created, id).value.metadata.transferredFrom == sourceId)
    || (id in s.intents && s.intents[id].identifier == id)
  }

  function Choose(cfg: Config, s: State, sourceId: Id, id: Id, taken: set<Id>): Option<Id> {
    if id == "" then cfg.reserve(Ir, taken)
    else if !cfg.wellFormed(Ir, id) || (id in taken && !Ours(s, sourceId, id)) then None
    else Some(id)
  }

  /** The identifier loop: every entry keeps its number or is given the next free one. */
  function Resolve(cfg: Config, s: State, sourceId: Id, wanted: seq<Id>, taken: set<Id>): (r: Option<seq<Id>>)
    ensures r.Some? ==> |r.value| == |wanted|
    ensures r.Some? ==> forall i :: 0 <= i < |wanted| && wanted[i] != "" ==> r.value[i] == wanted[i]
    decreases |wanted|
  {
    if wanted == [] then Some([])
    else
      var c := Choose(cfg, s, sourceId, wanted[0], taken);
      if c.None? then None
      else
        var rest := Resolve(cfg, s, sourceId, wanted[1..], taken + {c.value});
        if rest.None? then None else Some([c.value] + rest.value)
  }

  /** A retry asks for the identifiers its plan reserved. */
  function Wanted(cfg: Config, s: State, scope: Scope): (r: seq<Id>)
    ensures |r| == |scope.successors|
  {
    var id := cfg.strip(scope.source.identifier);
    seq(|scope.successors|, i requires 0 <= i < |scope.successors| =>
      if id in s.plans && i < |s.plans[id].identifiers| then cfg.strip(s.plans[id].identifiers[i])
      else cfg.strip(scope.successors[i].identifier))
  }

  function PlannedIds(cfg: Config, s: State, scope: Scope, remoteIds: set<Id>): (r: Option<seq<Id>>)
    ensures r.Some? ==> |r.value| == |scope.successors|
  {
    var id := cfg.strip(scope.source.identifier);
    Resolve(cfg, s, id, Wanted(cfg, s, scope), Known(s, remoteIds) + {id})
  }

  function JobOf(cfg: Config, scope: Scope, ids: seq<Id>): (job: Job)
    requires |ids| == |scope.successors|
    ensures |job.entries| == |ids| && forall i :: 0 <= i < |ids| ==> job.entries[i].identifier == ids[i]
  {
    Job(scope.source, cfg.strip(scope.source.identifier), Clean(cfg, scope.source.remaining),
        seq(|ids|, i requires 0 <= i < |ids| =>
          Entry(cfg.strip(scope.successors[i].title), Clean(cfg, scope.successors[i].criteria), ids[i])))
  }

  function Identifiers(job: Job): (r: seq<Id>)
    ensures |r| == |job.entries|
  {
    seq(|job.entries|, i requires 0 <= i < |job.entries| => job.entries[i].identifier)
  }

  /** `consolidate_ir` up to the gate: `Some` when the plan is persisted. */
  function PlanFor(cfg: Config, s: State, scope: Scope, remoteIds: set<Id>): (r: Option<seq<Id>>)
    ensures r.Some? ==> |r.value| == |scope.successors|
  {
    var id := cfg.strip(scope.source.identifier);
    if !PlanSound(cfg, scope) || id in s.transfers then None
    else if id in s.plans && s.plans[id].scope != scope then None
    else PlannedIds(cfg, s, scope, remoteIds)
  }

  function PlanTransfer(cfg: Config, s: State, scope: Scope, a: Answers): State {
    var ids := PlanFor(cfg, s, scope, a.remoteIds);
    if ids.None? then s
    else
      var t := s.(plans := s.plans[cfg.strip(scope.source.identifier) := Plan(scope, ids.value)]);
      if a.allowed then t.(process := Creating(JobOf(cfg, scope, ids.value), 0)) else t
  }

  function SuccessorAsk(job: Job, i: nat): Ask
    requires i < |job.entries|
  {
    AskIssue(Ir, job.entries[i].title, job.entries[i].identifier, job.entries[i].identifier,
             Metadata(job.sourceId, job.entries[i].criteria, job.source.title))
  }

  predicate AllRecorded(created: seq<Record>, ids: seq<Id>) {
    forall i :: 0 <= i < |ids| ==> ByIdentifier(created, ids[i]).Some?
  }

  /** The criteria of the persisted records, in order. */
  function CoveredBy(created: seq<Record>, ids: seq<Id>): seq<string>
    requires AllRecorded(created, ids)
  {
    if ids == [] then []
    else CoveredBy(created, ids[..|ids| - 1]) + ByIdentifier(created, ids[|ids| - 1]).value.metadata.criteria
  }

  function CreateNext(cfg: Config, s: State, job: Job, i: nat, a: Answers): State
    requires SearchHonest(s, a.found)
  {
    if i < |job.entries| then Begin(s, AskFor(cfg, s, SuccessorAsk(job, i), a), Within(job, i))
    else if AllRecorded(s.created, Identifiers(job)) then s.(process := Verifying(job, 0))
    else s.(process := Idle)
  }

  /** One round of the verification loop, or the coverage check after it. */
  function Verify(s: State, job: Job, k: nat, body: Option<Body>): State {
    if !AllRecorded(s.created, Identifiers(job)) then s.(process := Idle)
    else if k < |job.entries| then
      var r := ByIdentifier(s.created, job.entries[k].identifier);
      if r.None? || r.value.metadata.transferredFrom != job.sourceId || body.None? then s.(process := Idle)
      else
        var t := s.(readBack := s.readBack + {(r.value.number, body.value)});
        t.(process := if body.value == r.value.expected then Verifying(job, k + 1) else Idle)
    else
      var covered := CoveredBy(s.created, Identifiers(job));
      if Elements(covered) == Elements(job.remaining) && NoRepeats(covered)
      then s.(process := Closing(job)) else s.(process := Idle)
  }

  /** The number to close: the caller's, or the one recorded for the source. */
  function SourceNumber(s: State, job: Job): Option<nat> {
    if job.source.number.Some? then job.source.number
    else
      var r := ByIdentifier(s.created, job.sourceId);
      if r.Some? then Some(r.value.number) else None
  }

  function RequestClose(s: State, job: Job): State {
    var n := SourceNumber(s, job);
    if n.None? then s.(process := Idle)
    else s.(process := CloseSent(job, n.value), closes := s.closes + {job.sourceId})
  }

  function RecordTransfer(s: State, job: Job, number: nat): State {
    s.(transfers := s.transfers[job.sourceId := Transfer(Identifiers(job), job.remaining, number)], process := Idle)
  }

  // ------------------------------------------------------------------ events

  datatype Event =
    | Opened(issue: Issue)                    // someone else opens an issue
    | Edited(number: nat, issue: Issue)       // an issue changes, by whomever
    | Delivered(i: nat)                       // a request in flight takes effect
    | Lost(i: nat)                            // a request in flight never arrives
    | Crash
    | Asked(ask: Ask, answers: Answers)
    | SendOut
    | CreatedReply(number: nat)
    | RejectedReply
    | NoReply
    | Persisted
    | Planned(scope: Scope, answers: Answers)
    | Created(answers: Answers)
    | Verified(body: Option<Body>)
    | CloseRequested
    | CloseReply(confirmed: bool)
    | TransferRecorded

  /** Which answers are possible: searches and reads show the remote as it is. */
  predicate Enabled(s: State, e: Event) {
    match e
    case Opened(_) => true
    case Edited(number, _) => number < |s.remote|
    case Delivered(i) => i < |s.sends| && s.sends[i].fate.InFlight?
    case Lost(i) => i < |s.sends| && s.sends[i].fate.InFlight?
    case Crash => true
    case Asked(_, a) => s.process.Idle? && SearchHonest(s, a.found)
    case SendOut => s.process.Ready?
    case CreatedReply(n) => s.process.Waiting? && s.sends != [] && s.sends[|s.sends| - 1].fate == Applied(n)
    case RejectedReply => s.process.Waiting? && s.sends != [] && s.sends[|s.sends| - 1].fate == InFlight
    case NoReply => s.process.Waiting?
    case Persisted => s.process.Answered? || s.process.Failed?
    case Planned(_, _) => s.process.Idle?
    case Created(a) => s.process.Creating? && SearchHonest(s, a.found)
    case Verified(body) => s.process.Verifying? && (body.None? || ReadsBack(s, s.process.job, s.process.k, body.value))
    case CloseRequested => s.process.Closing?
    case CloseReply(confirmed) => s.process.CloseSent?
      && (confirmed ==> s.process.number < |s.remote| && !s.remote[s.process.number].open)
    case TransferRecorded => s.process.Closed?
  }

  /** The body read for successor `k` is that of the issue its record names. */
  predicate ReadsBack(s: State, job: Job, k: nat, body: Body) {
    k < |job.entries| ==>
      var r := ByIdentifier(s.created, job.entries[k].identifier);
      r.Some? ==> r.value.number < |s.remote| && s.remote[r.value.number].body == body
  }

  function Settle(s: State, i: nat, fate: Fate): State
    requires i < |s.sends|
  {
    s.(sends := s.sends[i := s.sends[i].(fate := fate)])
  }

  function Publish(s: State, issue: Issue): State {
    s.(remote := s.remote + [issue], held := s.held + {(|s.remote|, issue.body)},
       shut := if issue.open then s.shut else s.shut + {|s.remote|})
  }

  function Deliver(s: State, i: nat): State
    requires i < |s.sends|
  {
    var req := s.sends[i].request;
    Settle(Publish(s, Issue(FullTitle(req.content), Complete(req.key, req.content), true)), i, Applied(|s.remote|))
  }

  function Edit(s: State, n: nat, issue: Issue): State
    requires n < |s.remote|
  {
    s.(remote := s.remote[n := issue], held := s.held + {(n, issue.body)},
       shut := if issue.open then s.shut else s.shut + {n})
  }

  function Step(cfg: Config, s: State, e: Event): State
    requires Enabled(s, e)
  {
    match e
    case Opened(issue) => Publish(s, issue)
    case Edited(n, issue) => Edit(s, n, issue)
    case Delivered(i) => Deliver(s, i)
    case Lost(i) => Settle(s, i, Dropped)
    case Crash => s.(process := Idle)
    case Asked(ask, a) => Begin(s, AskFor(cfg, s, ask, a), Alone)
    case SendOut => s.(sends := s.sends + [Sent(s.process.request, InFlight)],
        process := Waiting(s.process.request, s.process.caller))
    case CreatedReply(n) => s.(process := Answered(s.process.request, n, s.process.caller))
    case RejectedReply => Settle(s, |s.sends| - 1, Refused).(process := Failed(s.process.request, true))
    case NoReply => s.(process := Failed(s.process.request, false))
    case Persisted => Persist(s)
    case Planned(scope, a) => PlanTransfer(cfg, s, scope, a)
    case Created(a) => CreateNext(cfg, s, s.process.job, s.process.i, a)
    case Verified(body) => Verify(s, s.process.job, s.process.k, body)
    case CloseRequested => RequestClose(s, s.process.job)
    case CloseReply(confirmed) => s.(process := if confirmed then Closed(s.process.job, s.process.number) else Idle)
    case TransferRecorded => RecordTransfer(s, s.process.job, s.process.number)
  }

  ghost predicate Initial(s: State) {
    && s.intents == map[] && s.created == [] && s.plans == map[] && s.transfers == map[]
    && s.sends == [] && s.readBack == {} && s.closes == {} && s.process == Idle
    && (forall n :: 0 <= n < |s.remote| ==> (n, s.remote[n].body) in s.held && (!s.remote[n].open ==> n in s.shut))
  }

  ghost predicate IsRun(cfg: Config, tr: seq<State>, es: seq<Event>) {
    && |tr| == |es| + 1 && Initial(tr[0])
    && forall k :: 0 <= k < |es| ==> Enabled(tr[k], es[k]) && tr[k + 1] == Step(cfg, tr[k], es[k])
  }
}
