/** Counters over the attempts of a step whose trigger is the HTTP one. */
module CounterRetries {
  import opened Text
  import opened Engine
  import opened EngineLaws
  import opened Counters
  import Rewriting
  import HttpTrigger
  import Template

  /** Every Execute of step i does to the variables what HTTPTrigger.Execute does. */
  ghost predicate DrivenByHttp(script: Script, i: nat, cfg: HttpTrigger.Config, runID: string) {
    forall a, vars :: ExecutedBy(script.execute(i, a, vars), cfg, runID, vars)
  }

  ghost predicate ExecutedBy(t: Trigger, cfg: HttpTrigger.Config, runID: string, vars: Env) {
    exists parts, r, sent ::
      && HttpTrigger.Executed(cfg, runID, vars, parts, t.vars, r, sent)
      && (if t.Fired? then r == HttpTrigger.Ok(t.extracted) else r.Err?)
  }

  /** The HTTP trigger as a port of the engine: the shared map is left as Execute leaves it. */
  method FireHttp(cfg: HttpTrigger.Config, runID: string, vars: Template.Vars, rng: Template.Random,
                  wire: HttpTrigger.Wire)
    returns (t: Trigger)
    modifies vars, rng
    ensures ExecutedBy(t, cfg, runID, old(vars.entries))
    ensures t.vars == vars.entries
  {
    var r, sent, q, rs, flat := HttpTrigger.Execute(cfg, runID, vars, rng, wire);
    match r
    case Ok(extracted) => t := Fired(vars.entries, extracted);
    case Err(message) => t := TriggerFailed(vars.entries, message);
  }

  /** c is neither the run id, nor extracted, nor used in the response assertions. */
  ghost predicate OnlyInRequest(c: string, cfg: HttpTrigger.Config) {
    && c != "run_id" && c !in cfg.extract
    && Total("++", c, HttpTrigger.CheckTexts(cfg.checks)) == 0
    && Total("--", c, HttpTrigger.CheckTexts(cfg.checks)) == 0
  }

  /** One attempt moves the counter once, even if it fails or the guard stops it. */
  lemma AttemptMovesCounter(t: Trigger, cfg: HttpTrigger.Config, runID: string, vars: Env, c: string, k: int)
    requires ExecutedBy(t, cfg, runID, vars) && HttpTrigger.ConfigOfTemplates(cfg) && OnlyInRequest(c, cfg)
    requires Rewriting.Counter(vars, c) == Some(k)
    ensures Rewriting.Counter(Left(t), c) ==
            Some(Net(k, HttpTrigger.ConfigUses("++", c, cfg), HttpTrigger.ConfigUses("--", c, cfg)))
  {
    var parts, r, sent :|
      && HttpTrigger.Executed(cfg, runID, vars, parts, t.vars, r, sent)
      && (if t.Fired? then r == HttpTrigger.Ok(t.extracted) else r.Err?);
    HttpTrigger.ExecuteMovesCounter(cfg, runID, vars, parts, t.vars, r, sent, c, k);
  }

  /** k moved n times by p increments and q decrements. */
  function Moves(k: int, p: nat, q: nat, n: nat): int
    decreases n
  {
    if n == 0 then k else Moves(Net(k, p, q), p, q, n - 1)
  }

  function Product(n: nat, p: nat): nat {
    n * p
  }

  lemma {:induction false} MovesClosed(k: int, p: nat, q: nat, n: nat)
    requires InInt64(k)
    ensures Moves(k, p, q, n) == Net(k, Product(n, p), Product(n, q))
    decreases n
  {
    if n == 0 {
      assert Net(k, 0, 0) == k;
    } else {
      MovesClosed(Net(k, p, q), p, q, n - 1);
      assert Product(n, p) == p + Product(n - 1, p) && Product(n, q) == q + Product(n - 1, q);
      NetSum(k, p, q, Product(n - 1, p), Product(n - 1, q), Product(n, p), Product(n, q));
    }
  }

  /** The attempts made from one run state to the other. */
  function Grown(before: Run, after: Run): nat {
    if after.result.attempts >= before.result.attempts then after.result.attempts - before.result.attempts else 0
  }

  /** The attempts made lie within the limit, and moved the counter each time. */
  ghost predicate MovedBy(before: Run, after: Run, least: nat, most: nat, c: string, k: int, p: nat, q: nat) {
    && before.result.attempts + least <= after.result.attempts <= before.result.attempts + most
    && Rewriting.Counter(after.vars, c) == Some(Moves(k, p, q, Grown(before, after)))
  }

  lemma OneMore(before: Run, mid: Run, after: Run, most: nat, c: string, k: int, p: nat, q: nat)
    requires mid.result.attempts == before.result.attempts + 1
    requires MovedBy(mid, after, 0, most, c, Net(k, p, q), p, q)
    ensures MovedBy(before, after, 1, most + 1, c, k, p, q)
  {
    assert Grown(before, after) == Grown(mid, after) + 1;
  }

  /** Every trigger of step i moves c by p increments and q decrements. */
  ghost predicate StepsBy(script: Script, i: nat, c: string, p: nat, q: nat) {
    forall a, vars | Rewriting.Counter(vars, c).Some? ::
      Rewriting.Counter(Left(script.execute(i, a, vars)), c) == Some(Net(Rewriting.Counter(vars, c).value, p, q))
  }

  /** Any trigger that moves c by a fixed amount, from attempt a on. */
  lemma {:induction false} RetriesMoveCounter(run: Run, step: StepConfig, script: Script, i: nat, a: nat, max: nat,
                                              lastError: Option<string>, c: string, k: int, p: nat, q: nat)
    requires StepsBy(script, i, c, p, q) && a <= max + 1 && Rewriting.Counter(run.vars, c) == Some(k)
    ensures MovedBy(run, AttemptFrom(run, step, script, i, a, max, lastError).run, if a <= max then 1 else 0,
                    max + 1 - a, c, k, p, q)
    decreases max + 1 - a
  {
    if a <= max {
      var t := Attempt(run, step, script, i, a, lastError);
      AttemptKeeps(run, step, script, i, a, lastError);
      if t.again {
        RetriesMoveCounter(t.tried.run, step, script, i, a + 1, max, t.tried.lastError, c, Net(k, p, q), p, q);
      }
      OneMore(run, t.tried.run, AttemptFrom(run, step, script, i, a, max, lastError).run, max - a, c, k, p, q);
    }
  }

  lemma HttpStepsBy(script: Script, i: nat, cfg: HttpTrigger.Config, runID: string, c: string)
    requires DrivenByHttp(script, i, cfg, runID) && HttpTrigger.ConfigOfTemplates(cfg) && OnlyInRequest(c, cfg)
    ensures StepsBy(script, i, c, HttpTrigger.ConfigUses("++", c, cfg), HttpTrigger.ConfigUses("--", c, cfg))
  {
    forall a, vars | Rewriting.Counter(vars, c).Some?
      ensures Rewriting.Counter(Left(script.execute(i, a, vars)), c) ==
              Some(Net(Rewriting.Counter(vars, c).value, HttpTrigger.ConfigUses("++", c, cfg),
                       HttpTrigger.ConfigUses("--", c, cfg)))
    {
      AttemptMovesCounter(script.execute(i, a, vars), cfg, runID, vars, c, Rewriting.Counter(vars, c).value);
    }
  }

  /** Counter use across retries: with p increments and q decrements of c in URL, headers and body,
      the n attempts a step makes move c by n times p - q, attempts that fail or are stopped by the
      guard included; result.Attempts grows by exactly n, at least one and within the limit. */
  lemma StepMovesCounter(run: Run, def: Definition, script: Script, i: nat, cfg: HttpTrigger.Config, runID: string,
                         c: string, k: int)
    requires i < |def.steps| && DrivenByHttp(script, i, cfg, runID) && HttpTrigger.ConfigOfTemplates(cfg)
             && OnlyInRequest(c, cfg)
    requires Rewriting.Counter(run.vars, c) == Some(k)
    ensures var out := AttemptFrom(run, def.steps[i], script, i, 1, MaxAttempts(def), None).run;
            var n := Grown(run, out);
            && out.result.attempts == run.result.attempts + n && 1 <= n <= MaxAttempts(def)
            && Rewriting.Counter(out.vars, c) ==
               Some(Net(k, Product(n, HttpTrigger.ConfigUses("++", c, cfg)),
                        Product(n, HttpTrigger.ConfigUses("--", c, cfg))))
  {
    var p, q := HttpTrigger.ConfigUses("++", c, cfg), HttpTrigger.ConfigUses("--", c, cfg);
    CounterInt64(run.vars, c);
    HttpStepsBy(script, i, cfg, runID, c);
    RetriesMoveCounter(run, def.steps[i], script, i, 1, MaxAttempts(def), None, c, k, p, q);
    MovesClosed(k, p, q, Grown(run, AttemptFrom(run, def.steps[i], script, i, 1, MaxAttempts(def), None).run));
  }
}
