/** The crew's sequential process: each task runs once, in the crew's
    order, on its interpolated description and the outputs of its context
    tasks; the first exception ends the run; the last task's output is the
    crew's result. The agents themselves (the language model) are an opaque
    function. */
module Crew {

  import opened Results
  import opened Tasks

  /** One task execution by its agent: the task, its interpolated
      description and its context tasks' outputs give either the agent's
      answer or the message of the exception it raised. */
  type Agent = (Stage, string, seq<string>) -> Result<string, string>

  /** The outputs of `stages`, in order. */
  function Outputs(stages: seq<Stage>, outputs: map<Stage, string>): seq<string>
    requires forall d :: d in stages ==> d in outputs
  {
    if stages == [] then [] else [outputs[stages[0]]] + Outputs(stages[1..], outputs)
  }

  /** The context a task receives: its context tasks' outputs, in the order
      of its `context` list. */
  function ContextOutputs(s: Stage, outputs: map<Stage, string>): seq<string>
    requires forall d :: d in Context(s) ==> d in outputs
  {
    Outputs(Context(s), outputs)
  }

  lemma {:induction false} OutputsAgree(stages: seq<Stage>, m1: map<Stage, string>, m2: map<Stage, string>)
    requires forall d :: d in stages ==> d in m1 && d in m2 && m1[d] == m2[d]
    ensures Outputs(stages, m1) == Outputs(stages, m2)
  {
    if stages != [] {
      OutputsAgree(stages[1..], m1, m2);
    }
  }

  /** Every task of `todo` finds its context tasks either already done or
      earlier in `todo`. */
  ghost predicate Ready(todo: seq<Stage>, done: set<Stage>) {
    forall i, d :: 0 <= i < |todo| && d in Context(todo[i]) ==> d in done || d in todo[..i]
  }

  /** Once the first task of `todo` is done, the rest are ready. */
  lemma ReadyAfterFirst(todo: seq<Stage>, done: map<Stage, string>, out: string)
    requires todo != [] && Ready(todo, done.Keys)
    ensures Ready(todo[1..], done[todo[0] := out].Keys)
  {
    var rest := todo[1..];
    var done' := done[todo[0] := out];
    forall i, d | 0 <= i < |rest| && d in Context(rest[i])
      ensures d in done'.Keys || d in rest[..i]
    {
      assert rest[i] == todo[i + 1];
      assert d in done || d in todo[..i + 1];
      if d in todo[..i + 1] && d != todo[0] {
        var k :| 0 <= k < i + 1 && todo[k] == d;
        assert rest[..i][k - 1] == d;
      }
    }
  }

  /** The first task of a ready list finds all its context tasks done. */
  lemma ReadyFirst(todo: seq<Stage>, done: set<Stage>)
    requires todo != [] && Ready(todo, done)
    ensures forall d :: d in Context(todo[0]) ==> d in done
  {
    assert forall d :: d in Context(todo[0]) ==> d in done || d in todo[..0];
  }

  /** Runs `todo` in order after the tasks in `done`. On success, every task
      has an output and earlier outputs are kept (what the outputs are is
      `RunTasksAnswers`). */
  function RunTasks(todo: seq<Stage>, describe: Stage -> string, agent: Agent, done: map<Stage, string>)
    : (r: Result<map<Stage, string>, string>)
    requires Ready(todo, done.Keys)
    requires forall i, j :: 0 <= i < j < |todo| ==> todo[i] != todo[j]
    requires forall i :: 0 <= i < |todo| ==> todo[i] !in done
    ensures r.Success? ==> forall s :: s in r.value <==> s in done || s in todo
    ensures r.Success? ==> forall s :: s in done ==> r.value[s] == done[s]
    decreases |todo|
  {
    if todo == [] then Success(done)
    else
      var s := todo[0];
      ReadyFirst(todo, done.Keys);
      match agent(s, describe(s), ContextOutputs(s, done))
      case Failure(e) => Failure(e)
      case Success(out) =>
        ReadyAfterFirst(todo, done, out);
        var r := RunTasks(todo[1..], describe, agent, done[s := out]);
        assert forall t :: t in todo ==> t == s || t in todo[1..];
        r
  }

  /** After a successful run every task of `todo` finds its context tasks' outputs. */
  lemma RunTasksHasContexts(todo: seq<Stage>, describe: Stage -> string, agent: Agent, done: map<Stage, string>)
    requires Ready(todo, done.Keys)
    requires forall i, j :: 0 <= i < j < |todo| ==> todo[i] != todo[j]
    requires forall i :: 0 <= i < |todo| ==> todo[i] !in done
    ensures var r := RunTasks(todo, describe, agent, done);
      r.Success? ==> forall s, d :: s in todo && d in Context(s) ==> d in r.value
  {
    var r := RunTasks(todo, describe, agent, done);
    if r.Success? {
      forall s, d | s in todo && d in Context(s) ensures d in r.value {
        var i :| 0 <= i < |todo| && todo[i] == s;
        assert d in done.Keys || d in todo[..i];
      }
    }
  }

  /** A successful run's output for each task is what the agent answered
      given that task's description and exactly its context tasks' outputs. */
  lemma {:induction false} RunTasksAnswers(todo: seq<Stage>, describe: Stage -> string, agent: Agent, done: map<Stage, string>)
    requires Ready(todo, done.Keys)
    requires forall i, j :: 0 <= i < j < |todo| ==> todo[i] != todo[j]
    requires forall i :: 0 <= i < |todo| ==> todo[i] !in done
    ensures var r := RunTasks(todo, describe, agent, done);
      r.Success? ==> forall s :: s in todo && (forall d :: d in Context(s) ==> d in r.value) ==>
        agent(s, describe(s), ContextOutputs(s, r.value)) == Success(r.value[s])
    decreases |todo|
  {
    var r := RunTasks(todo, describe, agent, done);
    if todo != [] && r.Success? {
      var s := todo[0];
      ReadyFirst(todo, done.Keys);
      var out := agent(s, describe(s), ContextOutputs(s, done)).value;
      ReadyAfterFirst(todo, done, out);
      var done' := done[s := out];
      RunTasksAnswers(todo[1..], describe, agent, done');
      assert r == RunTasks(todo[1..], describe, agent, done');
      OutputsAgree(Context(s), done, r.value);
      assert forall t :: t in todo ==> t == s || t in todo[1..];
    }
  }

  /** `m` holds an output for each task of `tasks`: the agent's answer on
      that task's description and its context tasks' outputs in `m`. */
  ghost predicate Answers(tasks: seq<Stage>, describe: Stage -> string, agent: Agent, m: map<Stage, string>) {
    forall s :: s in tasks ==>
      && s in m
      && (forall d :: d in Context(s) ==> d in m)
      && agent(s, describe(s), ContextOutputs(s, m)) == Success(m[s])
  }

  /** `m` holds exactly the outputs in `done`, unchanged, and outputs for
      the tasks of `before`. */
  ghost predicate Extends(m: map<Stage, string>, done: map<Stage, string>, before: seq<Stage>) {
    && (forall s :: s in m <==> s in done || s in before)
    && (forall s :: s in done ==> s in m && m[s] == done[s])
  }

  /** Task `t`'s agent call, on its description and its context tasks'
      outputs in `m`, raises `error`. */
  ghost predicate Raises(t: Stage, describe: Stage -> string, agent: Agent, m: map<Stage, string>, error: string) {
    && (forall d :: d in Context(t) ==> d in m)
    && agent(t, describe(t), ContextOutputs(t, m)) == Failure(error)
  }

  /** The run of `todo` after `done` stops at its i-th task with `error`:
      `m` holds `done` and the answers of the tasks before the i-th, and the
      i-th task's agent call on those outputs raises `error`. */
  ghost predicate FailsAt(todo: seq<Stage>, describe: Stage -> string, agent: Agent, done: map<Stage, string>,
                          i: nat, m: map<Stage, string>, error: string) {
    && i < |todo|
    && Extends(m, done, todo[..i])
    && Answers(todo[..i], describe, agent, m)
    && Raises(todo[i], describe, agent, m, error)
  }

  /** Answers for a list are answers for any list of its tasks. */
  lemma AnswersSub(a: seq<Stage>, b: seq<Stage>, describe: Stage -> string, agent: Agent, m: map<Stage, string>)
    requires Answers(a, describe, agent, m) && forall t :: t in b ==> t in a
    ensures Answers(b, describe, agent, m)
  {
  }

  /** The first task's answer and the answers of the next i tasks are the
      answers of the first i + 1 tasks. */
  lemma AnswersCons(todo: seq<Stage>, describe: Stage -> string, agent: Agent, done: map<Stage, string>,
                    out: string, i: nat, m: map<Stage, string>)
    requires todo != [] && i < |todo| && Ready(todo, done.Keys)
    requires agent(todo[0], describe(todo[0]), ContextOutputs(todo[0], done)) == Success(out)
    requires forall s :: s in done ==> s in m && m[s] == done[s]
    requires todo[0] in m && m[todo[0]] == out
    requires Answers(todo[1..][..i], describe, agent, m)
    ensures Answers(todo[..i + 1], describe, agent, m)
  {
    var s := todo[0];
    ReadyFirst(todo, done.Keys);
    OutputsAgree(Context(s), done, m);
    assert todo[..i + 1] == [s] + todo[1..][..i];
  }

  /** Extending `done` with the first task's output by the next i tasks
      extends `done` by the first i + 1 tasks. */
  lemma ExtendsCons(todo: seq<Stage>, done: map<Stage, string>, out: string, i: nat, m: map<Stage, string>)
    requires todo != [] && i < |todo| && todo[0] !in done
    requires Extends(m, done[todo[0] := out], todo[1..][..i])
    ensures Extends(m, done, todo[..i + 1]) && m[todo[0]] == out
  {
    assert todo[..i + 1] == [todo[0]] + todo[1..][..i];
  }

  /** Failing at a later task of `todo` after its first task answered
      `out` is failing at that task of `todo`. */
  lemma FailsAtLater(todo: seq<Stage>, describe: Stage -> string, agent: Agent, done: map<Stage, string>,
                     out: string, i: nat, m: map<Stage, string>, e: string)
    requires todo != [] && Ready(todo, done.Keys) && todo[0] !in done
    requires agent(todo[0], describe(todo[0]), ContextOutputs(todo[0], done)) == Success(out)
    requires FailsAt(todo[1..], describe, agent, done[todo[0] := out], i, m, e)
    ensures FailsAt(todo, describe, agent, done, i + 1, m, e)
  {
    assert todo[1..][i] == todo[i + 1];
    ExtendsCons(todo, done, out, i, m);
    AnswersCons(todo, describe, agent, done, out, i, m);
  }

  /** When the run fails at a task after the first, the first task was
      answered on the outputs `done` holds. */
  lemma FirstAnswered(todo: seq<Stage>, describe: Stage -> string, agent: Agent, done: map<Stage, string>,
                      i: nat, m: map<Stage, string>, e: string)
    requires Ready(todo, done.Keys)
    requires FailsAt(todo, describe, agent, done, i, m, e) && i > 0
    ensures todo[0] in m && (forall d :: d in Context(todo[0]) ==> d in done)
    ensures agent(todo[0], describe(todo[0]), ContextOutputs(todo[0], done)) == Success(m[todo[0]])
  {
    var s := todo[0];
    ReadyFirst(todo, done.Keys);
    assert s in todo[..i];
    OutputsAgree(Context(s), done, m);
  }

  /** Extending `done` by the first i tasks extends `done` plus the first
      task's output by the next i - 1 tasks. */
  lemma ExtendsRest(todo: seq<Stage>, done: map<Stage, string>, i: nat, m: map<Stage, string>)
    requires 0 < i <= |todo| && Extends(m, done, todo[..i])
    ensures todo[0] in m && Extends(m, done[todo[0] := m[todo[0]]], todo[1..][..i - 1])
  {
    assert todo[..i] == [todo[0]] + todo[1..][..i - 1];
  }

  /** Failing at a task after the first is failing at that task of the
      rest of the run, once the first task's answer is done. */
  lemma FailsAtRest(todo: seq<Stage>, describe: Stage -> string, agent: Agent, done: map<Stage, string>,
                    i: nat, m: map<Stage, string>, e: string)
    requires FailsAt(todo, describe, agent, done, i, m, e) && i > 0
    ensures todo[0] in m
    ensures FailsAt(todo[1..], describe, agent, done[todo[0] := m[todo[0]]], i - 1, m, e)
  {
    ExtendsRest(todo, done, i, m);
    AnswersSub(todo[..i], todo[1..][..i - 1], describe, agent, m);
    assert todo[1..][i - 1] == todo[i];
  }

  /** Failing at the first task makes the run fail with that task's error. */
  lemma FailsAtFirst(todo: seq<Stage>, describe: Stage -> string, agent: Agent, done: map<Stage, string>,
                     m: map<Stage, string>, e: string)
    requires Ready(todo, done.Keys)
    requires forall i, j :: 0 <= i < j < |todo| ==> todo[i] != todo[j]
    requires forall i :: 0 <= i < |todo| ==> todo[i] !in done
    requires FailsAt(todo, describe, agent, done, 0, m, e)
    ensures RunTasks(todo, describe, agent, done) == Failure(e)
  {
    ReadyFirst(todo, done.Keys);
    OutputsAgree(Context(todo[0]), done, m);
  }

  /** Failing at a task with `error` makes the run fail with `error`. */
  lemma {:induction false} FailsAtFails(todo: seq<Stage>, describe: Stage -> string, agent: Agent, done: map<Stage, string>,
                                        i: nat, m: map<Stage, string>, e: string)
    requires Ready(todo, done.Keys)
    requires forall i, j :: 0 <= i < j < |todo| ==> todo[i] != todo[j]
    requires forall i :: 0 <= i < |todo| ==> todo[i] !in done
    requires FailsAt(todo, describe, agent, done, i, m, e)
    ensures RunTasks(todo, describe, agent, done) == Failure(e)
    decreases |todo|
  {
    if i == 0 {
      FailsAtFirst(todo, describe, agent, done, m, e);
    } else {
      FirstAnswered(todo, describe, agent, done, i, m, e);
      FailsAtRest(todo, describe, agent, done, i, m, e);
      var out := m[todo[0]];
      ReadyAfterFirst(todo, done, out);
      FailsAtFails(todo[1..], describe, agent, done[todo[0] := out], i - 1, m, e);
      assert RunTasks(todo, describe, agent, done) == RunTasks(todo[1..], describe, agent, done[todo[0] := out]);
    }
  }

  /** A failed run failed at some task: every task before it was answered,
      and its own agent call, on exactly the outputs those tasks produced,
      raised the run's error. */
  lemma {:induction false} RunTasksFails(todo: seq<Stage>, describe: Stage -> string, agent: Agent, done: map<Stage, string>)
    requires Ready(todo, done.Keys)
    requires forall i, j :: 0 <= i < j < |todo| ==> todo[i] != todo[j]
    requires forall i :: 0 <= i < |todo| ==> todo[i] !in done
    ensures var r := RunTasks(todo, describe, agent, done);
      r.Failure? ==> exists i: nat, m :: FailsAt(todo, describe, agent, done, i, m, r.error)
    decreases |todo|
  {
    var r := RunTasks(todo, describe, agent, done);
    if todo != [] && r.Failure? {
      var s := todo[0];
      ReadyFirst(todo, done.Keys);
      match agent(s, describe(s), ContextOutputs(s, done))
      case Failure(e) =>
        assert todo[..0] == [];
        assert FailsAt(todo, describe, agent, done, 0, done, r.error);
      case Success(out) =>
        ReadyAfterFirst(todo, done, out);
        var done' := done[s := out];
        assert r == RunTasks(todo[1..], describe, agent, done');
        RunTasksFails(todo[1..], describe, agent, done');
        var i: nat, m :| FailsAt(todo[1..], describe, agent, done', i, m, r.error);
        FailsAtLater(todo, describe, agent, done, out, i, m, r.error);
    }
  }

  /** The outputs before the crew starts. */
  const NoOutputs: map<Stage, string> := map[]

  /** The crew's order is ready to run from scratch. */
  lemma CrewOrderReady()
    ensures Ready(CrewOrder, {})
  {
    forall i, d | 0 <= i < |CrewOrder| && d in Context(CrewOrder[i])
      ensures d in CrewOrder[..i]
    {
      OrderRespectsContext(CrewOrder[i], d);
    }
  }

  /** When no agent call raises, every task runs and the run succeeds. */
  lemma {:induction false} RunTasksWithoutFailure(todo: seq<Stage>, describe: Stage -> string, agent: Agent, done: map<Stage, string>)
    requires Ready(todo, done.Keys)
    requires forall i, j :: 0 <= i < j < |todo| ==> todo[i] != todo[j]
    requires forall i :: 0 <= i < |todo| ==> todo[i] !in done
    requires forall s, d, c :: agent(s, d, c).Success?
    ensures RunTasks(todo, describe, agent, done).Success?
    decreases |todo|
  {
    if todo != [] {
      var s := todo[0];
      ReadyFirst(todo, done.Keys);
      var out := agent(s, describe(s), ContextOutputs(s, done)).value;
      ReadyAfterFirst(todo, done, out);
      RunTasksWithoutFailure(todo[1..], describe, agent, done[s := out]);
    }
  }

  /** The description a task's agent receives: its template with the
      `{query}` and `{file_path}` slots replaced by the kickoff's query and
      file path. */
  function TaskInput(s: Stage, query: string, filePath: string): (input: string)
    ensures input == Fill(Template(s), KickoffInputs(query, filePath))
  {
    DescriptionsFill(s, query, filePath);
    Interpolate(Description(s), KickoffInputs(query, filePath)).value
  }

  /** Each task's description, interpolated from the kickoff inputs. */
  function Descriptions(query: string, filePath: string): Stage -> string
  {
    s => TaskInput(s, query, filePath)
  }

  /** What the sequential run over the crew's order, from scratch,
      promises: it is ready to run, and it succeeds with each task's answer
      on its own context, or fails with the error of the task it fails at. */
  lemma CrewRun(describe: Stage -> string, agent: Agent)
    ensures Ready(CrewOrder, NoOutputs.Keys)
    ensures forall i, j :: 0 <= i < j < |CrewOrder| ==> CrewOrder[i] != CrewOrder[j]
    ensures var r := RunTasks(CrewOrder, describe, agent, NoOutputs);
      && (r.Success? ==> forall s: Stage :: s in r.value)
      && (r.Success? ==> forall s: Stage ::
            agent(s, describe(s), ContextOutputs(s, r.value)) == Success(r.value[s]))
      && (r.Failure? ==> exists i: nat, m :: FailsAt(CrewOrder, describe, agent, NoOutputs, i, m, r.error))
      && (forall i: nat, m, e :: FailsAt(CrewOrder, describe, agent, NoOutputs, i, m, e) ==> r == Failure(e))
      && ((forall s, d, c :: agent(s, d, c).Success?) ==> r.Success?)
  {
    CrewOrderIsPermutation();
    CrewOrderReady();
    assert NoOutputs.Keys == {};
    RunTasksAnswers(CrewOrder, describe, agent, NoOutputs);
    RunTasksFails(CrewOrder, describe, agent, NoOutputs);
    forall i: nat, m, e | FailsAt(CrewOrder, describe, agent, NoOutputs, i, m, e)
      ensures RunTasks(CrewOrder, describe, agent, NoOutputs) == Failure(e)
    {
      FailsAtFails(CrewOrder, describe, agent, NoOutputs, i, m, e);
    }
    if forall s, d, c :: agent(s, d, c).Success? {
      RunTasksWithoutFailure(CrewOrder, describe, agent, NoOutputs);
    }
  }

  /** The sequential process over the crew's order, given each task's
      interpolated description. Every task runs unless one raises: the
      verifier's instruction to halt on a non-financial document is prompt
      text, and nothing here reads its output. */
  function RunCrew(describe: Stage -> string, agent: Agent): (r: Result<map<Stage, string>, string>)
    ensures r.Success? ==> forall s: Stage :: s in r.value
    ensures r.Success? ==> forall s: Stage ::
      agent(s, describe(s), ContextOutputs(s, r.value)) == Success(r.value[s])
    ensures r.Failure? ==> exists i: nat, m :: FailsAt(CrewOrder, describe, agent, NoOutputs, i, m, r.error)
    ensures forall i: nat, m, e :: FailsAt(CrewOrder, describe, agent, NoOutputs, i, m, e) ==> r == Failure(e)
    ensures r.Success? <==> forall i: nat, m, e :: !FailsAt(CrewOrder, describe, agent, NoOutputs, i, m, e)
    ensures (forall s, d, c :: agent(s, d, c).Success?) ==> r.Success?
  {
    CrewRun(describe, agent);
    RunTasks(CrewOrder, describe, agent, NoOutputs)
  }

  /** `financial_crew.kickoff(inputs={'query': query, 'file_path': file_path})`:
      the output of the crew's last task, the investment analysis, or the
      message of the first exception. */
  function Kickoff(query: string, filePath: string, agent: Agent): (r: Result<string, string>)
    ensures var run := RunCrew(Descriptions(query, filePath), agent);
      && (r.Success? <==> run.Success?)
      && (r.Success? ==> agent(InvestmentAnalysis, TaskInput(InvestmentAnalysis, query, filePath),
                               ContextOutputs(InvestmentAnalysis, run.value)) == Success(r.value))
      && (r.Failure? ==> r.error == run.error)
    ensures r.Failure? ==> exists i: nat, m :: FailsAt(CrewOrder, Descriptions(query, filePath), agent, NoOutputs, i, m, r.error)
    ensures forall i: nat, m, e :: FailsAt(CrewOrder, Descriptions(query, filePath), agent, NoOutputs, i, m, e) ==> r == Failure(e)
    ensures r.Success? <==> forall i: nat, m, e :: !FailsAt(CrewOrder, Descriptions(query, filePath), agent, NoOutputs, i, m, e)
    ensures (forall s, d, c :: agent(s, d, c).Success?) ==> r.Success?
  {
    match RunCrew(Descriptions(query, filePath), agent)
    case Success(outputs) => Success(outputs[InvestmentAnalysis])
    case Failure(e) => Failure(e)
  }
}
