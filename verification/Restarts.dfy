/** Rolling restarts of the workloads that depend on a rotated Secret. */
module Restarts {
  import opened Prelude
  import opened Api

  const RESTARTED_AT := "secrets.keysmith.io/restartedAt"

  datatype WorkloadKey = WorkloadKey(kind: string, namespace: string, name: string)

  /** The annotations of every stored workload's pod template. */
  type Templates = map<WorkloadKey, map<string, string>>

  /** What the server answers to the lookup and the update of one target. */
  datatype Answer = Answer(found: bool, update: Reply)

  predicate Supported(kind: string) {
    kind == "Deployment" || kind == "StatefulSet" || kind == "DaemonSet"
  }

  function KeyOf(namespace: string, target: RestartTarget): WorkloadKey {
    WorkloadKey(target.kind, if target.namespace == "" then namespace else target.namespace, target.name)
  }

  // ---------- the specification ----------

  /** The chosen elements, in order and with duplicates. */
  function Select<T>(s: seq<T>, chosen: seq<bool>): (r: seq<T>)
    requires |s| == |chosen|
  {
    if s == [] then []
    else
      var n := |s| - 1;
      Select(s[..n], chosen[..n]) + if chosen[n] then [s[n]] else []
  }

  /** The targets that are restarted: of a supported kind, and reported as updated. */
  function Chosen(targets: seq<RestartTarget>, updated: seq<bool>): (r: seq<bool>)
    requires |targets| == |updated|
    ensures |r| == |targets|
  {
    seq(|targets|, i requires 0 <= i < |targets| => Supported(targets[i].kind) && updated[i])
  }

  function Restarted(targets: seq<RestartTarget>, updated: seq<bool>): seq<RestartTarget>
    requires |targets| == |updated|
  {
    Select(targets, Chosen(targets, updated))
  }

  /** The update of a target takes place: its workload exists, was found, and the write was not refused. */
  predicate TakesPlace(templates: Templates, namespace: string, target: RestartTarget, answer: Answer) {
    Supported(target.kind) && KeyOf(namespace, target) in templates && answer.found && !answer.update.Refused?
  }

  /** What the templates are after all targets. */
  function Annotated(templates: Templates, namespace: string, targets: seq<RestartTarget>, answers: seq<Answer>,
                     at: string)
    : Templates
    requires |targets| == |answers|
  {
    if targets == [] then templates
    else
      var n := |targets| - 1;
      var before := Annotated(templates, namespace, targets[..n], answers[..n], at);
      var key := KeyOf(namespace, targets[n]);
      if !TakesPlace(before, namespace, targets[n], answers[n]) then before
      else before[key := before[key][RESTARTED_AT := at]]
  }

  /** Which targets the controller learns were updated: a lost acknowledgement is an error to it. */
  function Updated(templates: Templates, namespace: string, targets: seq<RestartTarget>,
                   answers: seq<Answer>): (r: seq<bool>)
    requires |targets| == |answers|
    ensures |r| == |targets|
  {
    seq(|targets|, i requires 0 <= i < |targets| =>
      KeyOf(namespace, targets[i]) in templates && answers[i].found && answers[i].update.Accepted?)
  }

  // ---------- what it promises ----------

  /** The positions are exactly the chosen ones, in order. */
  ghost predicate Lists(positions: seq<nat>, chosen: seq<bool>) {
    && (forall i, j :: 0 <= i < j < |positions| ==> positions[i] < positions[j])
    && (forall i :: 0 <= i < |positions| ==> positions[i] < |chosen|)
    && (forall k :: 0 <= k < |chosen| ==> (k in positions <==> chosen[k]))
  }

  lemma ListsNext(positions: seq<nat>, chosen: seq<bool>)
    requires chosen != [] && Lists(positions, chosen[..|chosen| - 1])
    ensures Lists(if Last(chosen) then positions + [|chosen| - 1] else positions, chosen)
  {
    var n := |chosen| - 1;
    forall k | 0 <= k < n ensures k in positions <==> chosen[k] {
      assert chosen[..n][k] == chosen[k];
    }
  }

  ghost predicate AreAt<T>(r: seq<T>, s: seq<T>, positions: seq<nat>) {
    |r| == |positions| && forall i :: 0 <= i < |r| ==> positions[i] < |s| && r[i] == s[positions[i]]
  }

  lemma AreAtNext<T>(r: seq<T>, s: seq<T>, positions: seq<nat>)
    requires s != [] && AreAt(r, s[..|s| - 1], positions)
    ensures AreAt(r, s, positions) && AreAt(r + [Last(s)], s, positions + [|s| - 1])
  {
  }

  lemma SelectNext<T>(s: seq<T>, chosen: seq<bool>)
    requires |s| == |chosen| && s != []
    ensures var front := Select(s[..|s| - 1], chosen[..|s| - 1]);
            Select(s, chosen) == if Last(chosen) then front + [Last(s)] else front
  {
  }

  lemma {:induction false} SelectIsSubsequence<T>(s: seq<T>, chosen: seq<bool>) returns (positions: seq<nat>)
    requires |s| == |chosen|
    ensures Lists(positions, chosen) && AreAt(Select(s, chosen), s, positions)
  {
    if s == [] {
      positions := [];
    } else {
      var n := |s| - 1;
      var before, choices := s[..n], chosen[..n];
      var front := SelectIsSubsequence(before, choices);
      ListsNext(front, chosen);
      AreAtNext(Select(before, choices), s, front);
      positions := if chosen[n] then front + [n] else front;
      SelectNext(s, chosen);
    }
  }

  /** The targets reported as restarted are the subsequence of the targets at exactly the positions that were. */
  lemma RestartedIsSubsequence(targets: seq<RestartTarget>, updated: seq<bool>) returns (positions: seq<nat>)
    requires |targets| == |updated|
    ensures forall i, j :: 0 <= i < j < |positions| ==> positions[i] < positions[j]
    ensures forall k: nat :: k in positions <==>
      k < |targets| && targets[k].kind in {"Deployment", "StatefulSet", "DaemonSet"} && updated[k]
    ensures |Restarted(targets, updated)| == |positions|
    ensures forall i :: 0 <= i < |positions| ==>
      positions[i] < |targets| && Restarted(targets, updated)[i] == targets[positions[i]]
  {
    positions := SelectIsSubsequence(targets, Chosen(targets, updated));
  }

  /** By the fields: the target names the workload, in the policy's namespace by default, and its update takes place. */
  ghost predicate Reaches(templates: Templates, namespace: string, target: RestartTarget, answer: Answer,
                          key: WorkloadKey) {
    && key.kind == target.kind && key.kind in {"Deployment", "StatefulSet", "DaemonSet"}
    && key.name == target.name && key.namespace == (if target.namespace == "" then namespace else target.namespace)
    && key in templates && answer.found && !answer.update.Refused?
  }

  /** Some target names the workload, and its update takes place. */
  ghost predicate Named(templates: Templates, namespace: string, targets: seq<RestartTarget>, answers: seq<Answer>,
                        key: WorkloadKey)
    requires |targets| == |answers|
  {
    exists i :: 0 <= i < |targets| && Reaches(templates, namespace, targets[i], answers[i], key)
  }

  /**
   Every workload ends annotated exactly when the update of some target that names it
   took place, and keeps all its other annotations; none appears or disappears.
   */
  lemma {:induction false} AnnotatedIff(templates: Templates, namespace: string, targets: seq<RestartTarget>,
                                        answers: seq<Answer>, at: string)
    requires |targets| == |answers|
    ensures var after := Annotated(templates, namespace, targets, answers, at);
            && after.Keys == templates.Keys
            && forall key :: key in templates ==>
                 after[key] == if Named(templates, namespace, targets, answers, key)
                               then templates[key]["secrets.keysmith.io/restartedAt" := at] else templates[key]
  {
    if targets != [] {
      var n := |targets| - 1;
      var front, frontAnswers := targets[..n], answers[..n];
      AnnotatedIff(templates, namespace, front, frontAnswers, at);
      forall key | key in templates
        ensures Named(templates, namespace, targets, answers, key) <==>
          (|| Named(templates, namespace, front, frontAnswers, key)
           || Reaches(templates, namespace, targets[n], answers[n], key))
      {
        forall i | 0 <= i < n ensures front[i] == targets[i] && frontAnswers[i] == answers[i] {
        }
      }
    }
  }

  /** A workload's fate depends only on the answers for the targets that name it: no failure affects another target. */
  lemma FailuresAreIndependent(templates: Templates, namespace: string, targets: seq<RestartTarget>,
                               answers: seq<Answer>, others: seq<Answer>, at: string, key: WorkloadKey)
    requires |targets| == |answers| == |others| && key in templates
    requires forall i :: 0 <= i < |targets| && KeyOf(namespace, targets[i]) == key ==> answers[i] == others[i]
    ensures Annotated(templates, namespace, targets, others, at).Keys == templates.Keys
    ensures Annotated(templates, namespace, targets, answers, at).Keys == templates.Keys
    ensures Annotated(templates, namespace, targets, answers, at)[key] ==
      Annotated(templates, namespace, targets, others, at)[key]
    ensures forall i :: 0 <= i < |targets| && KeyOf(namespace, targets[i]) == key ==>
      Updated(templates, namespace, targets, answers)[i] == Updated(templates, namespace, targets, others)[i]
  {
    AnnotatedIff(templates, namespace, targets, answers, at);
    AnnotatedIff(templates, namespace, targets, others, at);
  }

  /** A target reported as restarted has its workload annotated. */
  lemma RestartedIsAnnotated(templates: Templates, namespace: string, targets: seq<RestartTarget>,
                             answers: seq<Answer>, at: string, target: RestartTarget)
    requires |targets| == |answers|
    requires target in Restarted(targets, Updated(templates, namespace, targets, answers))
    ensures target in targets
    ensures var key := WorkloadKey(target.kind, if target.namespace == "" then namespace else target.namespace,
                                   target.name);
            var after := Annotated(templates, namespace, targets, answers, at);
            && key in templates && key in after
            && after[key] == templates[key]["secrets.keysmith.io/restartedAt" := at]
  {
    var positions := RestartedIsSubsequence(targets, Updated(templates, namespace, targets, answers));
    var r := Restarted(targets, Updated(templates, namespace, targets, answers));
    var i :| 0 <= i < |r| && r[i] == target;
    assert positions[i] in positions;
    assert Reaches(templates, namespace, target, answers[positions[i]], KeyOf(namespace, target));
    AnnotatedIff(templates, namespace, targets, answers, at);
  }

  // ---------- the loop ----------

  /** The workloads of the cluster. */
  class Workloads {
    var templates: Templates

    constructor (templates: Templates)
      ensures this.templates == templates
    {
      this.templates := templates;
    }

    /** Looks a workload up and writes its template back with the restart annotation. */
    method Annotate(key: WorkloadKey, answer: Answer, at: string) returns (failed: bool)
      modifies this
      ensures templates == if key in old(templates) && answer.found && !answer.update.Refused?
                           then old(templates)[key := old(templates)[key][RESTARTED_AT := at]] else old(templates)
      ensures failed <==> !(key in old(templates) && answer.found && answer.update.Accepted?)
    {
      if key !in templates || !answer.found {
        return true;
      }
      var annotations := templates[key];
      annotations := annotations[RESTARTED_AT := at];
      if !answer.update.Refused? {
        templates := templates[key := annotations];
      }
      return !answer.update.Accepted?;
    }

    /** Restarts the targets one after the other; a failure is skipped over. `answers` says how the server answers. */
    method TriggerRestarts(namespace: string, targets: seq<RestartTarget>, answers: seq<Answer>, at: string)
      returns (restarted: seq<RestartTarget>)
      requires |answers| == |targets|
      modifies this
      ensures templates == Annotated(old(templates), namespace, targets, answers, at)
      ensures restarted == Restarted(targets, Updated(old(templates), namespace, targets, answers))
    {
      restarted := [];
      ghost var updated := Updated(templates, namespace, targets, answers);
      for i := 0 to |targets|
        invariant templates == Annotated(old(templates), namespace, targets[..i], answers[..i], at)
        invariant templates.Keys == old(templates).Keys
        invariant restarted == Restarted(targets[..i], updated[..i])
      {
        var target := targets[i];
        assert Chosen(targets[..i + 1], updated[..i + 1])[..i] == Chosen(targets[..i], updated[..i]);
        assert targets[..i + 1][..i] == targets[..i];
        assert answers[..i + 1][..i] == answers[..i] && updated[..i + 1][..i] == updated[..i];
        if !Supported(target.kind) {
          continue;
        }
        var ns := if target.namespace == "" then namespace else target.namespace;
        var key := WorkloadKey(target.kind, ns, target.name);
        var failed := Annotate(key, answers[i], at);
        if !failed {
          restarted := restarted + [target];
        }
      }
      assert targets[..|targets|] == targets && answers[..|targets|] == answers && updated[..|targets|] == updated;
    }
  }
}
