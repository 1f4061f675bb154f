/** Human review of a report: annotate, override, finalize, reopen, with an audit log. The AI's
    output is read anew at every request. Time stamps of annotations and reviewer identities are
    left out. */
module Review {
  import opened Options
  import opened Text

  /** One finding of the AI's validation output. */
  datatype Finding = Finding(rule: string, requirement: Option<string>, status: string)

  /** The findings a request sees; None until there is a validation output. */
  type Findings = Option<seq<Finding>>

  datatype Override = Override(status: string, reason: string)

  datatype Annotation = Annotation(note: Option<string>, override: Option<Override>)

  datatype Entry =
    | NoteSet(rule: string, note: string, previousNote: Option<string>)
    | NoteClear(rule: string, previousNote: Option<string>)
    | OverrideSet(rule: string, override: Override, previous: Option<Override>, aiStatus: string)
    | OverrideClear(rule: string, previous: Option<Override>)
    | Finalized(overall: Option<string>)
    | Reopened(previousFinalizedAt: Option<nat>)

  datatype Report = Report(
    finalized: bool,
    annotations: map<string, Annotation>,
    history: seq<Entry>,
    finalizedAt: Option<nat>,
    effective: Option<string>)

  const FRESH := Report(false, map[], [], None, None)

  datatype Change = Change(note: Option<string>, overrideStatus: Option<string>, overrideReason: Option<string>,
                           clearNote: bool, clearOverride: bool)

  datatype Reply = Saved | UnknownRule | AlreadyFinalized | InvalidStatus | ReasonRequired

  predicate ValidStatus(status: string) {
    status == "pass" || status == "fail" || status == "uncertain" || status == "not_applicable"
  }

  // ── the verdict ──────────────────────────────────────────────────────────

  predicate Optional(f: Finding) {
    f.requirement.Some? && f.requirement.value != "" && Lower(Strip(f.requirement.value)) == "optional"
  }

  function EffectiveStatus(f: Finding, annotations: map<string, Annotation>): string {
    if f.rule in annotations && annotations[f.rule].override.Some? then annotations[f.rule].override.value.status
    else f.status
  }

  /** Some finding that is not optional has effective status `status`. */
  predicate SomeRequired(findings: seq<Finding>, annotations: map<string, Annotation>, status: string) {
    exists i | 0 <= i < |findings| :: !Optional(findings[i]) && EffectiveStatus(findings[i], annotations) == status
  }

  /** Any required fail decides; else any required uncertain; else the report passes. */
  function Overall(output: Findings, annotations: map<string, Annotation>): Option<string> {
    match output
    case None => None
    case Some(findings) =>
      if SomeRequired(findings, annotations, "fail") then Some("fail")
      else if SomeRequired(findings, annotations, "uncertain") then Some("needs_review")
      else Some("pass")
  }

  /** The effective statuses of the findings whose requirement, white space and case aside, is not
      "optional": a reviewer's status if there is one, else the AI's. */
  ghost function BindingStatuses(findings: seq<Finding>, annotations: map<string, Annotation>): set<string> {
    set f | f in findings && !(f.requirement.Some? && SameIgnoringCase(Strip(f.requirement.value), "optional")) ::
      if f.rule in annotations && annotations[f.rule].override.Some? then annotations[f.rule].override.value.status
      else f.status
  }

  lemma OptionalIgnoresCase(f: Finding)
    ensures Optional(f) <==> f.requirement.Some? && SameIgnoringCase(Strip(f.requirement.value), "optional")
  {
    if f.requirement.Some? {
      assert Lower("optional") == "optional";
      LowerDecides(Strip(f.requirement.value), "optional");
    }
  }

  lemma RequiredIsBinding(findings: seq<Finding>, annotations: map<string, Annotation>, status: string)
    ensures SomeRequired(findings, annotations, status) <==> status in BindingStatuses(findings, annotations)
  {
    forall f ensures Optional(f) <==>
                     f.requirement.Some? && SameIgnoringCase(Strip(f.requirement.value), "optional")
    {
      OptionalIgnoresCase(f);
    }
    if status in BindingStatuses(findings, annotations) {
      var f :| && f in findings && !Optional(f) && EffectiveStatus(f, annotations) == status;
      var i :| 0 <= i < |findings| && findings[i] == f;
    }
    if SomeRequired(findings, annotations, status) {
      var i :| 0 <= i < |findings| && !Optional(findings[i]) && EffectiveStatus(findings[i], annotations) == status;
      assert findings[i] in findings;
    }
  }

  /** A binding fail decides, else a binding uncertain; without an output there is no verdict. */
  method ComputeOverall(output: Findings, annotations: map<string, Annotation>)
    returns (overall: Option<string>)
    ensures overall == Overall(output, annotations)
    ensures overall.None? <==> output.None?
    ensures output.Some? ==>
              var binding := BindingStatuses(output.value, annotations);
              && (overall == Some("fail") <==> "fail" in binding)
              && (overall == Some("needs_review") <==> "fail" !in binding && "uncertain" in binding)
              && (overall == Some("pass") <==> "fail" !in binding && "uncertain" !in binding)
  {
    if output.None? {
      return None;
    }
    var findings := output.value;
    var hasFail, hasUncertain := false, false;
    for p := 0 to |findings|
      invariant hasFail <==> SomeRequired(findings[..p], annotations, "fail")
      invariant hasUncertain <==> SomeRequired(findings[..p], annotations, "uncertain")
    {
      var f := findings[p];
      PrefixVerdict(findings, annotations, p, "fail");
      PrefixVerdict(findings, annotations, p, "uncertain");
      if Optional(f) {
        continue;
      }
      var effective := EffectiveStatus(f, annotations);
      if effective == "fail" {
        hasFail := true;
      } else if effective == "uncertain" {
        hasUncertain := true;
      }
    }
    assert findings[..|findings|] == findings;
    RequiredIsBinding(findings, annotations, "fail");
    RequiredIsBinding(findings, annotations, "uncertain");
    overall := if hasFail then Some("fail") else if hasUncertain then Some("needs_review") else Some("pass");
  }

  lemma PrefixVerdict(findings: seq<Finding>, annotations: map<string, Annotation>, p: nat, status: string)
    requires p < |findings|
    ensures SomeRequired(findings[..p + 1], annotations, status) <==>
            SomeRequired(findings[..p], annotations, status)
            || (!Optional(findings[p]) && EffectiveStatus(findings[p], annotations) == status)
  {
  }

  // ── the AI's findings by rule ────────────────────────────────────────────

  predicate HasRule(output: Findings, rule: string) {
    output.Some? && rule != "" && exists i | 0 <= i < |output.value| :: output.value[i].rule == rule
  }

  /** The last finding of a rule counts. */
  function AiStatusIn(findings: seq<Finding>, rule: string): string {
    if findings == [] then ""
    else if findings[|findings| - 1].rule == rule then findings[|findings| - 1].status
    else AiStatusIn(findings[..|findings| - 1], rule)
  }

  lemma {:induction false} AiStatusIsLast(findings: seq<Finding>, rule: string, p: nat)
    requires p < |findings| && findings[p].rule == rule
    requires forall q :: p < q < |findings| ==> findings[q].rule != rule
    ensures AiStatusIn(findings, rule) == findings[p].status
  {
    if p < |findings| - 1 {
      AiStatusIsLast(findings[..|findings| - 1], rule, p);
    }
  }

  function AiStatus(output: Findings, rule: string): string {
    match output
    case None => ""
    case Some(findings) => AiStatusIn(findings, rule)
  }

  // ── one change ───────────────────────────────────────────────────────────

  function Get(annotations: map<string, Annotation>, rule: string): Annotation {
    if rule in annotations then annotations[rule] else Annotation(None, None)
  }

  /** Empty annotations are dropped. */
  function Put(annotations: map<string, Annotation>, rule: string, a: Annotation): map<string, Annotation> {
    if a == Annotation(None, None) then map r | r in annotations && r != rule :: annotations[r]
    else annotations[rule := a]
  }

  function NoteAfter(a: Annotation, c: Change): Option<string> {
    if c.clearNote then None
    else if c.note.None? then a.note
    else if Strip(c.note.value) != "" then Some(Strip(c.note.value))
    else None
  }

  function NoteEntries(rule: string, a: Annotation, c: Change): seq<Entry> {
    var after := NoteAfter(a, c);
    if after == a.note then []
    else if after.Some? then [NoteSet(rule, after.value, a.note)]
    else [NoteClear(rule, a.note)]
  }

  function RequestedStatus(c: Change): string
    requires c.overrideStatus.Some?
  {
    Lower(Strip(c.overrideStatus.value))
  }

  function RequestedReason(c: Change): string {
    match c.overrideReason
    case None => ""
    case Some(r) => Strip(r)
  }

  function OverrideAfter(a: Annotation, c: Change): Option<Override> {
    if c.clearOverride then None
    else if c.overrideStatus.None? then a.override
    else Some(Override(RequestedStatus(c), RequestedReason(c)))
  }

  function OverrideEntries(rule: string, a: Annotation, c: Change, aiStatus: string): seq<Entry> {
    var after := OverrideAfter(a, c);
    if after == a.override then []
    else if after.Some? then [OverrideSet(rule, after.value, a.override, aiStatus)]
    else [OverrideClear(rule, a.override)]
  }

  function OverrideRefusal(c: Change, aiStatus: string): Reply {
    if c.clearOverride || c.overrideStatus.None? then Saved
    else if !ValidStatus(RequestedStatus(c)) then InvalidStatus
    else if RequestedStatus(c) != aiStatus && RequestedReason(c) == "" then ReasonRequired
    else Saved
  }

  function Refusal(output: Findings, report: Report, rule: string, c: Change): Reply {
    if !HasRule(output, rule) then UnknownRule
    else if report.finalized then AlreadyFinalized
    else OverrideRefusal(c, AiStatus(output, rule))
  }

  function Annotated(output: Findings, report: Report, rule: string, c: Change): Report {
    var a := Get(report.annotations, rule);
    var annotations := Put(report.annotations, rule, Annotation(NoteAfter(a, c), OverrideAfter(a, c)));
    report.(annotations := annotations,
            history := report.history + NoteEntries(rule, a, c) + OverrideEntries(rule, a, c, AiStatus(output, rule)),
            effective := Overall(output, annotations))
  }

  function FinalizedReport(output: Findings, report: Report, now: nat): Report {
    var overall := Overall(output, report.annotations);
    report.(finalized := true, finalizedAt := Some(now), effective := overall,
            history := report.history + [Finalized(overall)])
  }

  function ReopenedReport(report: Report): Report {
    report.(finalized := false, finalizedAt := None, history := report.history + [Reopened(report.finalizedAt)])
  }

  // ── requests ─────────────────────────────────────────────────────────────

  datatype Request = Annotate(rule: string, change: Change) | Finalize(now: nat) | Reopen

  function Loaded(review: Option<Report>): Report {
    match review
    case None => FRESH
    case Some(r) => r
  }

  /** The stored review after a request; refused and idempotent requests store nothing. */
  function Apply(output: Findings, review: Option<Report>, r: Request): Option<Report> {
    var report := Loaded(review);
    match r
    case Annotate(rule, c) =>
      if Refusal(output, report, rule, c).Saved? then Some(Annotated(output, report, rule, c)) else review
    case Finalize(now) => if report.finalized then review else Some(FinalizedReport(output, report, now))
    case Reopen => if report.finalized then Some(ReopenedReport(report)) else review
  }

  /** `review.py`, lines 145-160. */
  method ChangeNote(rule: string, before: Annotation, c: Change) returns (ann: Annotation, changed: seq<Entry>)
    ensures ann == before.(note := NoteAfter(before, c))
    ensures changed == NoteEntries(rule, before, c)
  {
    ann, changed := before, [];
    if c.clearNote {
      if ann.note.Some? {
        changed := [NoteClear(rule, ann.note)];
      }
      ann := ann.(note := None);
    } else if c.note.Some? {
      var note := Strip(c.note.value);
      if note != "" {
        if ann.note != Some(note) {
          changed := [NoteSet(rule, note, ann.note)];
        }
        ann := ann.(note := Some(note));
      } else {
        if ann.note.Some? {
          changed := [NoteClear(rule, ann.note)];
        }
        ann := ann.(note := None);
      }
    }
  }

  /** `review.py`, lines 162-179. */
  method ChangeOverride(rule: string, before: Annotation, c: Change, aiStatus: string)
    returns (reply: Reply, ann: Annotation, changed: seq<Entry>)
    ensures reply == OverrideRefusal(c, aiStatus)
    ensures reply.Saved? ==> ann == before.(override := OverrideAfter(before, c))
    ensures reply.Saved? ==> changed == OverrideEntries(rule, before, c, aiStatus)
  {
    reply, ann, changed := Saved, before, [];
    if c.clearOverride {
      if ann.override.Some? {
        changed := [OverrideClear(rule, ann.override)];
      }
      ann := ann.(override := None);
    } else if c.overrideStatus.Some? {
      var status := Lower(Strip(c.overrideStatus.value));
      if !ValidStatus(status) {
        return InvalidStatus, ann, changed;
      }
      var reason := RequestedReason(c);
      if status != aiStatus && reason == "" {
        return ReasonRequired, ann, changed;
      }
      var requested := Override(status, reason);
      if ann.override != Some(requested) {
        changed := [OverrideSet(rule, requested, ann.override, aiStatus)];
      }
      ann := ann.(override := Some(requested));
    }
  }

  class Desk {
    var review: Option<Report>

    constructor ()
      ensures review.None?
    {
      review := None;
    }

    method AnnotateFinding(output: Findings, rule: string, c: Change) returns (reply: Reply)
      modifies this
      ensures reply == Refusal(output, Loaded(old(review)), rule, c)
      ensures review == Apply(output, old(review), Annotate(rule, c))
    {
      if !HasRule(output, rule) {
        return UnknownRule;
      }
      var aiStatus := AiStatus(output, rule);
      var report := Loaded(review);
      if report.finalized {
        return AlreadyFinalized;
      }
      var before := Get(report.annotations, rule);
      var ann, noted := ChangeNote(rule, before, c);
      var overridden;
      reply, ann, overridden := ChangeOverride(rule, ann, c, aiStatus);
      if !reply.Saved? {
        return;
      }
      var changed := noted + overridden;
      var annotations := Put(report.annotations, rule, ann);
      var overall := ComputeOverall(output, annotations);
      assert report.history + changed == report.history + noted + overridden;
      review := Some(report.(annotations := annotations, history := report.history + changed, effective := overall));
    }

    method FinalizeReview(output: Findings, now: nat)
      modifies this
      ensures review == Apply(output, old(review), Finalize(now))
      ensures var report := Loaded(old(review));
              if report.finalized then review == old(review)
              else
                && review.Some? && review.value.finalized && review.value.finalizedAt == Some(now)
                && review.value.annotations == report.annotations
                && review.value.history == report.history + [Finalized(review.value.effective)]
                && review.value.effective == Overall(output, report.annotations)
    {
      var report := Loaded(review);
      if report.finalized {
        return;
      }
      var overall := ComputeOverall(output, report.annotations);
      review := Some(report.(finalized := true, finalizedAt := Some(now), effective := overall,
                             history := report.history + [Finalized(overall)]));
    }

    method ReopenReview()
      modifies this
      ensures forall output :: review == Apply(output, old(review), Reopen)
      ensures var report := Loaded(old(review));
              if !report.finalized then review == old(review)
              else
                && review.Some? && !review.value.finalized && review.value.finalizedAt.None?
                && review.value.annotations == report.annotations && review.value.effective == report.effective
                && review.value.history == report.history + [Reopened(report.finalizedAt)]
    {
      var report := Loaded(review);
      if !report.finalized {
        return;
      }
      review := Some(report.(finalized := false, finalizedAt := None,
                             history := report.history + [Reopened(report.finalizedAt)]));
    }
  }

  // ── what an annotation comes to ──────────────────────────────────────────

  lemma KnownRule(output: Findings, rule: string)
    ensures HasRule(output, rule) <==> output.Some? && rule != "" && exists f :: f in output.value && f.rule == rule
  {
    if output.Some? && exists f :: f in output.value && f.rule == rule {
      var f :| f in output.value && f.rule == rule;
      var i :| 0 <= i < |output.value| && output.value[i] == f;
    }
  }

  /** The reply to change c: the refusals in the order of the tests, a reason being needed for a
      status other than the AI's. */
  ghost predicate Fits(output: Findings, report: Report, rule: string, c: Change, reply: Reply) {
    var known := output.Some? && rule != "" && exists f :: f in output.value && f.rule == rule;
    var overrides := known && !report.finalized && !c.clearOverride && c.overrideStatus.Some?;
    var status := if c.overrideStatus.Some? then Lower(Strip(c.overrideStatus.value)) else "";
    var valid := status in {"pass", "fail", "uncertain", "not_applicable"};
    var reasoned := c.overrideReason.Some? && Strip(c.overrideReason.value) != "";
    && (reply == UnknownRule <==> !known)
    && (reply == AlreadyFinalized <==> known && report.finalized)
    && (reply == InvalidStatus <==> overrides && !valid)
    && (reply == ReasonRequired <==> overrides && valid && status != AiStatus(output, rule) && !reasoned)
  }

  /** What a saved change c makes of the rule's note and override: clearing wins, an absent member
      leaves things as they are, a blank note clears, and what is stored is stripped. The rule keeps
      an annotation only if one of the two is left; no other rule and no stamp is touched. */
  ghost predicate Answers(report: Report, after: Report, rule: string, c: Change) {
    var was := if rule in report.annotations then report.annotations[rule] else Annotation(None, None);
    var now := if rule in after.annotations then after.annotations[rule] else Annotation(None, None);
    && (c.clearNote ==> now.note.None?)
    && (!c.clearNote && c.note.None? ==> now.note == was.note)
    && (!c.clearNote && c.note.Some? ==>
          now.note == if Strip(c.note.value) == "" then None else Some(Strip(c.note.value)))
    && (c.clearOverride ==> now.override.None?)
    && (!c.clearOverride && c.overrideStatus.None? ==> now.override == was.override)
    && (!c.clearOverride && c.overrideStatus.Some? ==>
          now.override == Some(Override(Lower(Strip(c.overrideStatus.value)),
                                        if c.overrideReason.Some? then Strip(c.overrideReason.value) else "")))
    && (rule in after.annotations <==> now.note.Some? || now.override.Some?)
    && after.annotations - {rule} == report.annotations - {rule}
    && after.finalized == report.finalized && after.finalizedAt == report.finalizedAt
  }

  ghost predicate Answered(output: Findings, before: Option<Report>, rule: string, c: Change, reply: Reply,
                           after: Option<Report>)
  {
    && Fits(output, Loaded(before), rule, c, reply)
    && (reply != Saved ==> after == before)
    && (reply == Saved ==> after.Some? && Answers(Loaded(before), after.value, rule, c))
  }

  lemma AnnotatedAnswers(output: Findings, report: Report, rule: string, c: Change)
    ensures Answers(report, Annotated(output, report, rule, c), rule, c)
  {
  }

  /** Which reply a change gets and what it leaves behind. */
  lemma AnnotateAnswers(output: Findings, review: Option<Report>, rule: string, c: Change)
    ensures Answered(output, review, rule, c, Refusal(output, Loaded(review), rule, c),
                     Apply(output, review, Annotate(rule, c)))
  {
    KnownRule(output, rule);
    AnnotatedAnswers(output, Loaded(review), rule, c);
  }

  // ── replaying the log ────────────────────────────────────────────────────

  function Replayed(annotations: map<string, Annotation>, e: Entry): map<string, Annotation> {
    match e
    case NoteSet(rule, note, _) => Put(annotations, rule, Get(annotations, rule).(note := Some(note)))
    case NoteClear(rule, _) => Put(annotations, rule, Get(annotations, rule).(note := None))
    case OverrideSet(rule, o, _, _) => Put(annotations, rule, Get(annotations, rule).(override := Some(o)))
    case OverrideClear(rule, _) => Put(annotations, rule, Get(annotations, rule).(override := None))
    case _ => annotations
  }

  /** The annotations the log alone tells of. */
  function Replay(history: seq<Entry>): map<string, Annotation> {
    if history == [] then map[]
    else Replayed(Replay(history[..|history| - 1]), history[|history| - 1])
  }

  predicate Closed(history: seq<Entry>) {
    if history == [] then false
    else
      match history[|history| - 1]
      case Finalized(_) => true
      case Reopened(_) => false
      case _ => Closed(history[..|history| - 1])
  }

  /** Entry e may follow `before`: annotations and finalizations only while the report is open,
      reopenings only while it is closed; and what the entry says about the past is true. */
  predicate Follows(output: Findings, before: seq<Entry>, e: Entry) {
    match e
    case NoteSet(rule, note, previous) =>
      !Closed(before) && previous == Get(Replay(before), rule).note && previous != Some(note)
    case NoteClear(rule, previous) =>
      !Closed(before) && previous == Get(Replay(before), rule).note && previous.Some?
    case OverrideSet(rule, o, previous, aiStatus) =>
      !Closed(before) && previous == Get(Replay(before), rule).override && previous != Some(o)
      && aiStatus == AiStatus(output, rule) && ValidStatus(o.status) && (o.status != aiStatus ==> o.reason != "")
    case OverrideClear(rule, previous) =>
      !Closed(before) && previous == Get(Replay(before), rule).override && previous.Some?
    case Finalized(overall) =>
      !Closed(before) && overall == Overall(output, Replay(before))
    case Reopened(_) =>
      Closed(before)
  }

  /** Every entry follows from those before it, under the output its request saw. */
  predicate Truthful(outputs: seq<Findings>, history: seq<Entry>) {
    && |outputs| == |history|
    && (history != [] ==>
          && Truthful(outputs[..|history| - 1], history[..|history| - 1])
          && Follows(outputs[|history| - 1], history[..|history| - 1], history[|history| - 1]))
  }

  /** No annotation is empty, and every override has a known status. */
  predicate Tidy(annotations: map<string, Annotation>) {
    forall rule :: rule in annotations ==>
      && annotations[rule] != Annotation(None, None)
      && (annotations[rule].override.Some? ==> ValidStatus(annotations[rule].override.value.status))
  }

  /** Every override that differs from the AI's status has a reason. */
  predicate Accountable(output: Findings, annotations: map<string, Annotation>) {
    forall rule :: rule in annotations && annotations[rule].override.Some? ==>
      var o := annotations[rule].override.value;
      o.status != AiStatus(output, rule) ==> o.reason != ""
  }

  /** `outputs` are the outputs seen when the log entries were written, `judged` the one seen when
      the verdict was last computed. */
  predicate Audited(outputs: seq<Findings>, judged: Option<Findings>, review: Option<Report>) {
    var report := Loaded(review);
    && Replay(report.history) == report.annotations
    && Truthful(outputs, report.history)
    && Tidy(report.annotations)
    && (Closed(report.history) <==> report.finalized)
    && (report.finalized <==> report.finalizedAt.Some?)
    && (review.Some? <==> judged.Some?)
    && report.effective == (match judged case None => None case Some(output) => Overall(output, report.annotations))
  }

  lemma TruthfulAppended(outputs: seq<Findings>, output: Findings, history: seq<Entry>, e: Entry)
    requires Truthful(outputs, history) && Follows(output, history, e)
    ensures Truthful(outputs + [output], history + [e])
  {
    assert (outputs + [output])[..|history|] == outputs;
    assert (history + [e])[..|history|] == history;
  }

  lemma ReplayAppended(history: seq<Entry>, e: Entry)
    ensures Replay(history + [e]) == Replayed(Replay(history), e)
  {
    assert (history + [e])[..|history|] == history;
  }

  lemma ClosedAppended(history: seq<Entry>, e: Entry)
    ensures Closed(history + [e]) <==> (e.Finalized? || (Closed(history) && !e.Reopened?))
  {
    assert (history + [e])[..|history|] == history;
  }

  lemma Appended(outputs: seq<Findings>, output: Findings, history: seq<Entry>, e: Entry)
    requires Truthful(outputs, history) && Follows(output, history, e)
    ensures Truthful(outputs + [output], history + [e])
    ensures Replay(history + [e]) == Replayed(Replay(history), e)
    ensures Closed(history + [e]) <==> (e.Finalized? || (Closed(history) && !e.Reopened?))
  {
    TruthfulAppended(outputs, output, history, e);
    ReplayAppended(history, e);
    ClosedAppended(history, e);
  }

  /** m' differs from m at most at `rule`. */
  predicate SameElsewhere(m: map<string, Annotation>, m': map<string, Annotation>, rule: string) {
    && (forall r :: r in m && r != rule ==> r in m' && m'[r] == m[r])
    && (forall r :: r in m' && r != rule ==> r in m)
  }

  lemma PutChangesOne(m: map<string, Annotation>, rule: string, a: Annotation)
    ensures Get(Put(m, rule, a), rule) == a && SameElsewhere(m, Put(m, rule, a), rule)
  {
  }

  /** n entries written under the same output. */
  function Under(output: Findings, n: nat): (outputs: seq<Findings>)
    ensures |outputs| == n && forall k :: 0 <= k < n ==> outputs[k] == output
  {
    seq(n, k => output)
  }

  /** At most one entry, whose replay sets one annotation. */
  lemma OneEntryIsLogged(outputs: seq<Findings>, output: Findings, history: seq<Entry>, entries: seq<Entry>,
                         rule: string, after: Annotation)
    requires Truthful(outputs, history) && !Closed(history) && |entries| <= 1
    requires entries == [] ==> after == Get(Replay(history), rule)
    requires entries != [] ==>
               && Follows(output, history, entries[0]) && !entries[0].Finalized? && !entries[0].Reopened?
               && Replayed(Replay(history), entries[0]) == Put(Replay(history), rule, after)
    ensures var history' := history + entries;
            && Truthful(outputs + Under(output, |entries|), history') && !Closed(history')
            && Get(Replay(history'), rule) == after && SameElsewhere(Replay(history), Replay(history'), rule)
  {
    if entries == [] {
      assert history + entries == history && outputs + Under(output, 0) == outputs;
    } else {
      assert entries == [entries[0]] && Under(output, 1) == [output];
      Appended(outputs, output, history, entries[0]);
      PutChangesOne(Replay(history), rule, after);
    }
  }

  /** A note change is logged by an entry that replays it. */
  lemma NoteIsLogged(outputs: seq<Findings>, output: Findings, history: seq<Entry>, rule: string, c: Change)
    requires Truthful(outputs, history) && !Closed(history)
    ensures var a := Get(Replay(history), rule);
            var entries := NoteEntries(rule, a, c);
            && Truthful(outputs + Under(output, |entries|), history + entries) && !Closed(history + entries)
            && Get(Replay(history + entries), rule) == a.(note := NoteAfter(a, c))
            && SameElsewhere(Replay(history), Replay(history + entries), rule)
  {
    var a := Get(Replay(history), rule);
    OneEntryIsLogged(outputs, output, history, NoteEntries(rule, a, c), rule, a.(note := NoteAfter(a, c)));
  }

  lemma OverrideIsLogged(outputs: seq<Findings>, output: Findings, history: seq<Entry>, rule: string, a: Annotation,
                         c: Change)
    requires Truthful(outputs, history) && !Closed(history)
    requires Get(Replay(history), rule).override == a.override
    requires OverrideRefusal(c, AiStatus(output, rule)).Saved?
    ensures var entries := OverrideEntries(rule, a, c, AiStatus(output, rule));
            && Truthful(outputs + Under(output, |entries|), history + entries) && !Closed(history + entries)
            && Get(Replay(history + entries), rule) == Get(Replay(history), rule).(override := OverrideAfter(a, c))
            && SameElsewhere(Replay(history), Replay(history + entries), rule)
  {
    var b := Get(Replay(history), rule);
    OneEntryIsLogged(outputs, output, history, OverrideEntries(rule, a, c, AiStatus(output, rule)), rule,
                     b.(override := OverrideAfter(a, c)));
  }

  /** No replayed annotation is empty. */
  lemma {:induction false} ReplayIsTidy(history: seq<Entry>)
    ensures forall r :: r in Replay(history) ==> Replay(history)[r] != Annotation(None, None)
  {
    if history != [] {
      ReplayIsTidy(history[..|history| - 1]);
    }
  }

  lemma UnderSplits(outputs: seq<Findings>, output: Findings, m: nat, n: nat)
    ensures outputs + Under(output, m) + Under(output, n) == outputs + Under(output, m + n)
  {
  }

  /** The override change, once the note change has been logged. */
  lemma OverrideAfterNote(outputs: seq<Findings>, output: Findings, history: seq<Entry>, middle: seq<Entry>,
                          rule: string, a: Annotation, c: Change)
    requires a == Get(Replay(history), rule) && Truthful(outputs, middle) && !Closed(middle)
    requires Get(Replay(middle), rule) == a.(note := NoteAfter(a, c))
    requires SameElsewhere(Replay(history), Replay(middle), rule)
    requires OverrideRefusal(c, AiStatus(output, rule)).Saved?
    ensures var entries := OverrideEntries(rule, a, c, AiStatus(output, rule));
            && Truthful(outputs + Under(output, |entries|), middle + entries) && !Closed(middle + entries)
            && Replay(middle + entries) == Put(Replay(history), rule, Annotation(NoteAfter(a, c), OverrideAfter(a, c)))
  {
    OverrideIsLogged(outputs, output, middle, rule, a, c);
    BothReplay(history, middle, middle + OverrideEntries(rule, a, c, AiStatus(output, rule)), rule, a, c);
  }

  /** Both changes of one annotation are logged. */
  lemma ChangeIsLogged(outputs: seq<Findings>, output: Findings, history: seq<Entry>, rule: string, c: Change)
    requires Truthful(outputs, history) && !Closed(history) && OverrideRefusal(c, AiStatus(output, rule)).Saved?
    ensures var a := Get(Replay(history), rule);
            var noted, overridden := NoteEntries(rule, a, c), OverrideEntries(rule, a, c, AiStatus(output, rule));
            var history' := history + noted + overridden;
            && Truthful(outputs + Under(output, |noted|) + Under(output, |overridden|), history') && !Closed(history')
            && Replay(history') == Put(Replay(history), rule, Annotation(NoteAfter(a, c), OverrideAfter(a, c)))
  {
    var a := Get(Replay(history), rule);
    var noted := NoteEntries(rule, a, c);
    NoteIsLogged(outputs, output, history, rule, c);
    OverrideAfterNote(outputs + Under(output, |noted|), output, history, history + noted, rule, a, c);
  }

  lemma BothReplay(history: seq<Entry>, middle: seq<Entry>, history': seq<Entry>, rule: string, a: Annotation,
                   c: Change)
    requires a == Get(Replay(history), rule)
    requires Get(Replay(middle), rule) == a.(note := NoteAfter(a, c))
    requires Get(Replay(history'), rule) == Get(Replay(middle), rule).(override := OverrideAfter(a, c))
    requires SameElsewhere(Replay(history), Replay(middle), rule)
    requires SameElsewhere(Replay(middle), Replay(history'), rule)
    ensures Replay(history') == Put(Replay(history), rule, Annotation(NoteAfter(a, c), OverrideAfter(a, c)))
  {
    var after := Annotation(NoteAfter(a, c), OverrideAfter(a, c));
    ReplayIsTidy(history);
    ReplayIsTidy(history');
    PutChangesOne(Replay(history), rule, after);
    SameAnnotations(Replay(history'), Put(Replay(history), rule, after), Replay(history), rule);
  }

  /** Tidy annotations that differ from m at most at `rule`, and agree there, are the same. */
  lemma SameAnnotations(a: map<string, Annotation>, b: map<string, Annotation>, m: map<string, Annotation>,
                        rule: string)
    requires SameElsewhere(m, a, rule) && SameElsewhere(m, b, rule) && Get(a, rule) == Get(b, rule)
    requires forall r :: r in a ==> a[r] != Annotation(None, None)
    requires forall r :: r in b ==> b[r] != Annotation(None, None)
    ensures a == b
  {
  }

  // ── visits ───────────────────────────────────────────────────────────────

  /** A request and the output it sees. */
  datatype Visit = Visit(output: Findings, request: Request)

  function ApplyAll(visits: seq<Visit>): Option<Report> {
    if visits == [] then None
    else
      var last := visits[|visits| - 1];
      Apply(last.output, ApplyAll(visits[..|visits| - 1]), last.request)
  }

  /** The output under which each log entry was written. */
  function WrittenUnder(visits: seq<Visit>): (outputs: seq<Findings>)
    ensures |outputs| == |Loaded(ApplyAll(visits)).history|
  {
    if visits == [] then []
    else
      var before, last := visits[..|visits| - 1], visits[|visits| - 1];
      LogIsAppendOnly(last.output, ApplyAll(before), last.request);
      WrittenUnder(before)
      + Under(last.output, |Loaded(ApplyAll(visits)).history| - |Loaded(ApplyAll(before)).history|)
  }

  /** The request computes the verdict: a saved annotation, or the finalizing of an open report. */
  predicate Judges(output: Findings, review: Option<Report>, r: Request) {
    match r
    case Annotate(rule, c) => Refusal(output, Loaded(review), rule, c).Saved?
    case Finalize(_) => !Loaded(review).finalized
    case Reopen => false
  }

  /** The output at the last request that computed the verdict. */
  function JudgedUnder(visits: seq<Visit>): Option<Findings> {
    if visits == [] then None
    else
      var before, last := visits[..|visits| - 1], visits[|visits| - 1];
      if Judges(last.output, ApplyAll(before), last.request) then Some(last.output) else JudgedUnder(before)
  }

  lemma ChangeIsTidy(report: Report, rule: string, c: Change, aiStatus: string)
    requires Tidy(report.annotations) && OverrideRefusal(c, aiStatus).Saved?
    ensures var a := Get(report.annotations, rule);
            Tidy(Put(report.annotations, rule, Annotation(NoteAfter(a, c), OverrideAfter(a, c))))
  {
  }

  lemma UnderBoth(outputs: seq<Findings>, output: Findings, history: seq<Entry>, noted: seq<Entry>,
                  overridden: seq<Entry>)
    ensures outputs + Under(output, |history + noted + overridden| - |history|) ==
            outputs + Under(output, |noted|) + Under(output, |overridden|)
  {
    UnderSplits(outputs, output, |noted|, |overridden|);
  }

  /** The audit of a report that has a truthful log. */
  lemma TruthfulIsAudited(outputs: seq<Findings>, output: Findings, report: Report)
    requires Truthful(outputs, report.history) && !Closed(report.history) && Tidy(report.annotations)
    requires Replay(report.history) == report.annotations && !report.finalized && report.finalizedAt.None?
    requires report.effective == Overall(output, report.annotations)
    ensures Audited(outputs, Some(output), Some(report))
  {
  }

  lemma AnnotationKeepsAudit(outputs: seq<Findings>, judged: Option<Findings>, review: Option<Report>,
                             output: Findings, rule: string, c: Change)
    requires Audited(outputs, judged, review) && Refusal(output, Loaded(review), rule, c).Saved?
    ensures var after := Annotated(output, Loaded(review), rule, c);
            && |Loaded(review).history| <= |after.history|
            && Audited(outputs + Under(output, |after.history| - |Loaded(review).history|), Some(output), Some(after))
  {
    var report := Loaded(review);
    var a := Get(report.annotations, rule);
    ChangeIsLogged(outputs, output, report.history, rule, c);
    ChangeIsTidy(report, rule, c, AiStatus(output, rule));
    UnderBoth(outputs, output, report.history, NoteEntries(rule, a, c),
              OverrideEntries(rule, a, c, AiStatus(output, rule)));
    var after := Annotated(output, report, rule, c);
    TruthfulIsAudited(outputs + Under(output, |after.history| - |report.history|), output, after);
  }

  lemma FinalizingKeepsAudit(outputs: seq<Findings>, judged: Option<Findings>, review: Option<Report>,
                             output: Findings, now: nat)
    requires Audited(outputs, judged, review) && !Loaded(review).finalized
    ensures Audited(outputs + [output], Some(output), Some(FinalizedReport(output, Loaded(review), now)))
  {
    var report := Loaded(review);
    Appended(outputs, output, report.history, Finalized(Overall(output, report.annotations)));
  }

  lemma ReopeningKeepsAudit(outputs: seq<Findings>, judged: Option<Findings>, review: Option<Report>,
                            output: Findings)
    requires Audited(outputs, judged, review) && Loaded(review).finalized
    ensures Audited(outputs + [output], judged, Some(ReopenedReport(Loaded(review))))
  {
    var report := Loaded(review);
    Appended(outputs, output, report.history, Reopened(report.finalizedAt));
  }

  lemma ApplyKeepsAudit(outputs: seq<Findings>, judged: Option<Findings>, review: Option<Report>, v: Visit)
    requires Audited(outputs, judged, review)
    ensures var after := Apply(v.output, review, v.request);
            && |Loaded(review).history| <= |Loaded(after).history|
            && Audited(outputs + Under(v.output, |Loaded(after).history| - |Loaded(review).history|),
                       if Judges(v.output, review, v.request) then Some(v.output) else judged, after)
  {
    var report := Loaded(review);
    assert outputs + Under(v.output, 0) == outputs && Under(v.output, 1) == [v.output];
    match v.request
    case Annotate(rule, c) =>
      if Refusal(v.output, report, rule, c).Saved? {
        AnnotationKeepsAudit(outputs, judged, review, v.output, rule, c);
      }
    case Finalize(now) =>
      if !report.finalized {
        FinalizingKeepsAudit(outputs, judged, review, v.output, now);
      }
    case Reopen =>
      if report.finalized {
        ReopeningKeepsAudit(outputs, judged, review, v.output);
      }
  }

  lemma VisitUnfolds(before: seq<Visit>, v: Visit)
    ensures var review, after := ApplyAll(before), ApplyAll(before + [v]);
            && after == Apply(v.output, review, v.request)
            && |Loaded(review).history| <= |Loaded(after).history|
            && WrittenUnder(before + [v]) ==
               WrittenUnder(before) + Under(v.output, |Loaded(after).history| - |Loaded(review).history|)
            && JudgedUnder(before + [v]) ==
               if Judges(v.output, review, v.request) then Some(v.output) else JudgedUnder(before)
  {
    assert (before + [v])[..|before|] == before;
    LogIsAppendOnly(v.output, ApplyAll(before), v.request);
  }

  /** After any sequence of requests, whatever outputs they saw: replaying the log rebuilds the
      notes and overrides exactly; finalize and reopen entries alternate with no annotation entry
      while closed; every entry is true of the entries before it and of the output its request saw,
      down to the reason an override that differs from the AI's status needs; and the stored verdict
      is that of the current annotations under the output at the last request that computed it. */
  lemma {:induction false} ReviewsAreAudited(visits: seq<Visit>)
    ensures Audited(WrittenUnder(visits), JudgedUnder(visits), ApplyAll(visits))
  {
    if visits != [] {
      var before, last := visits[..|visits| - 1], visits[|visits| - 1];
      ReviewsAreAudited(before);
      ApplyKeepsAudit(WrittenUnder(before), JudgedUnder(before), ApplyAll(before), last);
      VisitUnfolds(before, last);
      assert visits == before + [last];
    }
  }

  // ── reasons ──────────────────────────────────────────────────────────────

  /** The AI's status that the log last gives for an override of the rule. */
  function LoggedStatus(history: seq<Entry>, rule: string): string {
    if history == [] then ""
    else
      match history[|history| - 1]
      case OverrideSet(r, _, _, aiStatus) =>
        if r == rule then aiStatus else LoggedStatus(history[..|history| - 1], rule)
      case _ => LoggedStatus(history[..|history| - 1], rule)
  }

  lemma {:induction false} ReasonlessAgreed(outputs: seq<Findings>, history: seq<Entry>, rule: string)
    requires Truthful(outputs, history)
    ensures var o := Get(Replay(history), rule).override;
            o.Some? && o.value.reason == "" ==> o.value.status == LoggedStatus(history, rule)
  {
    if history != [] {
      ReasonlessAgreed(outputs[..|history| - 1], history[..|history| - 1], rule);
    }
  }

  /** Every override that differs from the AI's status under some output has a reason exactly when
      that output gives each rule overridden without one the status the log has for it. */
  lemma AccountableWhen(visits: seq<Visit>, output: Findings)
    ensures var report := Loaded(ApplyAll(visits));
            Accountable(output, report.annotations) <==>
              forall rule :: rule in report.annotations && report.annotations[rule].override.Some?
                             && report.annotations[rule].override.value.reason == "" ==>
                AiStatus(output, rule) == LoggedStatus(report.history, rule)
  {
    var report := Loaded(ApplyAll(visits));
    ReviewsAreAudited(visits);
    forall rule | rule in report.annotations && report.annotations[rule].override.Some?
                  && report.annotations[rule].override.value.reason == ""
      ensures report.annotations[rule].override.value.status == LoggedStatus(report.history, rule)
    {
      ReasonlessAgreed(WrittenUnder(visits), report.history, rule);
    }
  }

  // ── what a later output does to a report ─────────────────────────────────

  function OneFinding(status: string): Findings {
    Some([Finding("r", None, status)])
  }

  /** A report finalized before there is an output keeps no verdict when the output arrives. */
  lemma FinalizedTooEarly()
    ensures var report := Loaded(ApplyAll([Visit(None, Finalize(0))]));
            && report.finalized && report.effective.None?
            && Overall(OneFinding("fail"), report.annotations) == Some("fail")
  {
    var visits := [Visit(None, Finalize(0))];
    assert visits[..0] == [];
    var findings := [Finding("r", None, "fail")];
    assert !Optional(findings[0]) && EffectiveStatus(findings[0], map[]) == "fail";
    assert SomeRequired(findings, map[], "fail");
  }

  /** An override that agreed with the first output needs no reason, and has none when a later
      output disagrees. */
  lemma OverriddenTooEarly()
    ensures var agree := Change(None, Some("pass"), None, false, false);
            var report := Loaded(ApplyAll([Visit(OneFinding("pass"), Annotate("r", agree))]));
            && Accountable(OneFinding("pass"), report.annotations)
            && !Accountable(OneFinding("fail"), report.annotations)
  {
    var agree := Change(None, Some("pass"), None, false, false);
    var visits := [Visit(OneFinding("pass"), Annotate("r", agree))];
    assert visits[..0] == [];
    PassIsClean();
    OneFindingOf("pass");
    OneFindingOf("fail");
    assert Refusal(OneFinding("pass"), FRESH, "r", agree).Saved?;
    var report := Annotated(OneFinding("pass"), FRESH, "r", agree);
    assert ApplyAll(visits) == Some(report);
    assert report.annotations == map["r" := Annotation(None, Some(Override("pass", "")))];
  }

  lemma OneFindingOf(status: string)
    ensures HasRule(OneFinding(status), "r") && AiStatus(OneFinding(status), "r") == status
  {
    var findings := [Finding("r", None, status)];
    assert findings[0].rule == "r";
    assert AiStatusIn(findings, "r") == status;
  }

  lemma PassIsClean()
    ensures Lower(Strip("pass")) == "pass"
  {
    assert Strip("pass") == "pass";
  }

  /** A saved annotation touches no other rule, and it is logged exactly when it changes something. */
  lemma LoggedIffChanged(output: Findings, report: Report, rule: string, c: Change)
    requires Tidy(report.annotations) && Refusal(output, report, rule, c).Saved?
    ensures var report' := Annotated(output, report, rule, c);
            && SameElsewhere(report.annotations, report'.annotations, rule)
            && (report'.history == report.history <==> report'.annotations == report.annotations)
  {
    var a := Get(report.annotations, rule);
    var after := Annotation(NoteAfter(a, c), OverrideAfter(a, c));
    PutChangesOne(report.annotations, rule, after);
    if after == a {
      assert Put(report.annotations, rule, a) == report.annotations;
    }
  }

  /** The log only grows, and a refused or idempotent request leaves the review as it was. */
  lemma LogIsAppendOnly(output: Findings, review: Option<Report>, r: Request)
    ensures Loaded(review).history <= Loaded(Apply(output, review, r)).history
    ensures Loaded(review).finalized && !r.Reopen? ==> Apply(output, review, r) == review
  {
  }
}
