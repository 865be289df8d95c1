/** What one call of the governance client returns, sends or closes, in terms of its files and answers. */
module GovernanceCalls {
  import opened Common
  import opened Governance
  import opened GovernanceCriteria

  /** The first record of the key is record `i`. */
  predicate FirstOfKey(created: seq<Record>, i: int, key: Key) {
    0 <= i < |created| && created[i].key == key && forall j :: 0 <= j < i ==> created[j].key != key
  }

  lemma {:induction false} KeyLookupIsFirst(created: seq<Record>, key: Key) returns (i: nat)
    requires ByKey(created, key).Some?
    ensures FirstOfKey(created, i, key) && ByKey(created, key).value == created[i]
  {
    if created[0].key == key {
      i := 0;
    } else {
      i := KeyLookupIsFirst(created[1..], key);
      i := i + 1;
    }
  }

  ghost predicate Recorded(created: seq<Record>, key: Key) {
    exists i :: 0 <= i < |created| && created[i].key == key
  }

  /** An issue of the server stands for the request: it carries the key's marker, the title and the very body. */
  predicate StandsFor(issue: Issue, req: Request) {
    && Mark(req.key, req.content) in issue.body.marks
    && issue.title == req.content.identifier + " \U{2014} " + req.content.title
    && issue.body == req.draft.expected
  }

  /** The effect of a prepared request, given what the search found. */
  lemma EffectMeaning(s: State, req: Request, found: seq<nat>)
    requires SearchHonest(s, found)
    ensures var o := CreateEffect(s, req, found);
      && (o.Recovered? ==>
            && o.request == req && o.number in found && o.number < |s.remote|
            && req.key in s.intents && s.intents[req.key].content == req.content
            && StandsFor(s.remote[o.number], req))
      && (o.Go? ==>
            && o.request == req && found == []
            && (req.key in s.intents ==>
                  s.intents[req.key].content == req.content && s.intents[req.key].state == Reserved))
      && !o.AlreadyCreated? && !o.Denied? && !o.IdentifierUsed?
  {}

  /**
   What `create_issue` may return, recover or send: an existing record only if it is the key's and
   of the same scope; anything new only with the gate's leave, with no record of the key, and with
   exactly the content asked for.
   */
  lemma IssueCall(cfg: Config, s: State, kind: Kind, title0: string, id0: Id, key0: Key, metadata: Metadata, a: Answers)
    requires SearchHonest(s, a.found)
    ensures var o := AskFor(cfg, s, AskIssue(kind, title0, id0, key0, metadata), a);
      var title, wanted := cfg.strip(title0), cfg.strip(id0);
      var key := if cfg.strip(key0) != "" then cfg.strip(key0) else if wanted != "" then wanted else title;
      && (o.AlreadyCreated? ==>
            && (exists i :: FirstOfKey(s.created, i, key) && s.created[i] == o.record)
            && o.record.title == title && o.record.kind == kind && o.record.metadata == metadata
            && (wanted != "" ==> o.record.identifier == wanted))
      && (o.Recovered? || o.Go? ==>
            && a.allowed && kind != Lab && title != "" && !Recorded(s.created, key)
            && o.request.key == key
            && (wanted != "" ==> o.request.content.identifier == wanted)
            && o.request.content == Content(o.request.content.identifier, title,
                 cfg.renderIssue(kind, title, o.request.content.identifier, metadata), kind)
            && o.request.draft.metadata == metadata && o.request.draft.kind == kind
            && o.request.draft.identifier == o.request.content.identifier)
  {
    hide CreateEffect, Known;
    var title, wanted := cfg.strip(title0), cfg.strip(id0);
    var key := if cfg.strip(key0) != "" then cfg.strip(key0) else if wanted != "" then wanted else title;
    if ByKey(s.created, key).Some? {
      var i := KeyLookupIsFirst(s.created, key);
    } else if kind != Lab && title != "" && a.allowed {
      NumberedCall(cfg, s, kind, title, wanted, key, metadata, a);
    }
  }

  lemma NumberedCall(cfg: Config, s: State, kind: Kind, title: string, wanted: Id, key: Key, metadata: Metadata,
      a: Answers)
    requires SearchHonest(s, a.found)
    ensures var o := AskNumbered(cfg, s, kind, title, wanted, key, metadata, a);
      && !o.AlreadyCreated?
      && (o.Recovered? || o.Go? ==>
            && o.request.key == key
            && (wanted != "" ==> o.request.content.identifier == wanted)
            && o.request.content == Content(o.request.content.identifier, title,
                 cfg.renderIssue(kind, title, o.request.content.identifier, metadata), kind)
            && o.request.draft.metadata == metadata && o.request.draft.kind == kind
            && o.request.draft.identifier == o.request.content.identifier)
  {
    hide CreateEffect, Known;
    var pending := key in s.intents;
    var id := if wanted == "" && pending then s.intents[key].identifier else wanted;
    var chosen := if id != "" then Some(id) else cfg.reserve(kind, Known(s, a.remoteIds));
    if chosen.Some? {
      EffectMeaning(s, IssueRequest(cfg, kind, title, chosen.value, key, metadata), a.found);
    }
  }

  /** The same for `propose_lab_issue`; its issue takes a lab number, the key's earlier one or a reserved one. */
  lemma LabCall(cfg: Config, s: State, finding: Finding, key0: Key, a: Answers)
    requires SearchHonest(s, a.found)
    ensures var o := AskFor(cfg, s, AskLab(finding, key0), a);
      var key := if key0 != "" then key0 else if finding.identifier != "" then finding.identifier
                 else if |finding.title| <= 80 then finding.title else finding.title[..80];
      && (o.AlreadyCreated? ==>
            && (exists i :: FirstOfKey(s.created, i, key) && s.created[i] == o.record)
            && o.record.finding == Some(finding))
      && (o.Recovered? || o.Go? ==>
            var id := o.request.content.identifier;
            && a.allowed && cfg.valid(finding) && !Recorded(s.created, key)
            && o.request.key == key && o.request.draft.finding == Some(finding) && o.request.draft.labId == id
            && o.request.content == Content(id, finding.title, cfg.renderLab(finding, id), Lab)
            && (key in s.intents ==> id == s.intents[key].identifier))
  {
    hide CreateEffect, LabTaken;
    var key := LabKey(finding, key0);
    if ByKey(s.created, key).Some? {
      var i := KeyLookupIsFirst(s.created, key);
    } else {
      var reserved := cfg.reserve(Lab, LabTaken(s, a.remoteIds));
      var id := if key in s.intents then s.intents[key].identifier else if reserved.Some? then reserved.value else key;
      EffectMeaning(s, LabRequest(cfg, finding, id, key), a.found);
    }
  }

  // ------------------------------------------------------------------ verifying and closing

  ghost predicate HasRecord(created: seq<Record>, id: Id) {
    exists j :: 0 <= j < |created| && created[j].identifier == id
  }

  /** Each successor has a record. */
  ghost predicate EachRecorded(s: State, job: Job) {
    forall i :: 0 <= i < |job.entries| ==> HasRecord(s.created, job.entries[i].identifier)
  }

  lemma RecordedMeaning(s: State, job: Job)
    ensures AllRecorded(s.created, Identifiers(job)) <==> EachRecorded(s, job)
  {
    forall i | 0 <= i < |job.entries|
      ensures Identifiers(job)[i] == job.entries[i].identifier
      ensures ByIdentifier(s.created, job.entries[i].identifier).Some? <==> HasRecord(s.created,
          job.entries[i].identifier)
    {}
    hide ByIdentifier, HasRecord;
  }

  /**
   A round of the verification goes on to the next successor exactly when every successor has a
   record, this one's points back to the source, and the body read back is the one on record.
   */
  lemma RoundMeaning(cfg: Config, s: State, body: Option<Body>)
    requires s.process.Verifying? && s.process.k < |s.process.job.entries| && Enabled(s, Verified(body))
    ensures var t, job, k := Step(cfg, s, Verified(body)), s.process.job, s.process.k;
      && t.process == (if EachRecorded(s, job) && body.Some? && (exists j ::
              && First(s.created, j, job.entries[k].identifier)
              && s.created[j].metadata.transferredFrom == job.sourceId && s.created[j].expected == body.value)
            then Verifying(job, k + 1) else Idle)
      && t.created == s.created && t.remote == s.remote && t.closes == s.closes && t.transfers == s.transfers
  {
    hide Identifiers, AllRecorded, EachRecorded;
    var job, k := s.process.job, s.process.k;
    RecordedMeaning(s, job);
    if ByIdentifier(s.created, job.entries[k].identifier).Some? {
      var i := LookupIsFirst(s.created, job.entries[k].identifier);
      forall j | First(s.created, j, job.entries[k].identifier) ensures j == i {
        FirstIsOne(s.created, i, j, job.entries[k].identifier);
      }
    }
  }

  /**
   After the last round the source is to be closed exactly when every successor has a record, no
   criterion stands twice in the records, and the records hold what remained and nothing else.
   */
  lemma CoverageMeaning(cfg: Config, s: State, body: Option<Body>)
    requires s.process.Verifying? && s.process.k >= |s.process.job.entries| && Enabled(s, Verified(body))
    ensures var t, job := Step(cfg, s, Verified(body)), s.process.job;
      && t.process == (if EachRecorded(s, job) && HeldOnce(s.created, Identifiers(job))
                          && (forall x :: x in job.remaining <==> SomeHolds(s, job, x))
            then Closing(job) else Idle)
      && t.created == s.created && t.remote == s.remote && t.closes == s.closes && t.transfers == s.transfers
  {
    hide Identifiers, AllRecorded, EachRecorded, Elements, NoRepeats, Holds, CoveredBy;
    var job := s.process.job;
    RecordedMeaning(s, job);
    if AllRecorded(s.created, Identifiers(job)) {
      CoveredMeaning(s.created, Identifiers(job));
      ByElement(CoveredBy(s.created, Identifiers(job)), job.remaining);
      forall x ensures x in CoveredBy(s.created, Identifiers(job)) <==> SomeHolds(s, job, x) {}
    }
  }

  /** Some successor's record holds the criterion. */
  ghost predicate SomeHolds(s: State, job: Job, x: string) {
    exists k :: Holds(s.created, Identifiers(job), k, x)
  }

  /** What is closed is the source: the issue the caller names, or else the one on the source's first record. */
  lemma CloseMeaning(cfg: Config, s: State)
    requires s.process.Closing?
    ensures var t, job := Step(cfg, s, CloseRequested), s.process.job;
      && (t.process.CloseSent? <==>
            job.source.number.Some? || exists i :: 0 <= i < |s.created| && s.created[i].identifier == job.sourceId)
      && (t.process.CloseSent? ==>
            && t.process.job == job && t.closes == s.closes + {job.sourceId}
            && if job.source.number.Some? then t.process.number == job.source.number.value
               else exists i :: First(s.created, i, job.sourceId) && t.process.number == s.created[i].number)
      && (!t.process.CloseSent? ==> t == s.(process := Idle))
  {
    if job :| job == s.process.job && job.source.number.None? && ByIdentifier(s.created, job.sourceId).Some? {
      var i := LookupIsFirst(s.created, job.sourceId);
    }
  }
}
