/** Runs written out state by state, for building particular runs piece by piece. */
module Paths {
  import opened Basics
  import opened Deliveries
  import opened Protocol

  /** A run laid out: `states[i + 1]` is what `steps[i]` makes of `states[i]`. */
  datatype Path = Path(states: seq<State>, steps: seq<Step>)

  ghost predicate Leads(cfg: Config, s: State, path: Path, e: State) {
    && |path.states| == |path.steps| + 1
    && path.states[0] == s && path.states[|path.steps|] == e
    && forall i :: 0 <= i < |path.steps| ==>
         Enabled(cfg, path.states[i], path.steps[i]) && path.states[i + 1] == Apply(cfg, path.states[i], path.steps[i])
  }

  lemma {:induction false} PathRuns(cfg: Config, s: State, path: Path, e: State)
    requires Leads(cfg, s, path, e)
    ensures Run(cfg, s, path.steps) == Some(e)
    decreases |path.steps|
  {
    if path.steps != [] {
      var n := |path.steps| - 1;
      PathRuns(cfg, s, Path(path.states[..n + 1], path.steps[..n]), path.states[n]);
    }
  }

  lemma First(cfg: Config, s: State, step: Step) returns (path: Path, e: State)
    requires Enabled(cfg, s, step)
    ensures Leads(cfg, s, path, e) && e == Apply(cfg, s, step) && path.steps == [step]
  {
    e := Apply(cfg, s, step);
    path := Path([s, e], [step]);
  }

  lemma Both(cfg: Config, s: State, a: Path, m: State, b: Path, e: State) returns (path: Path)
    requires Leads(cfg, s, a, m) && Leads(cfg, m, b, e)
    ensures Leads(cfg, s, path, e) && path.steps == a.steps + b.steps
  {
    path := Path(a.states + b.states[1..], a.steps + b.steps);
    var n := |a.steps|;
    forall i | 0 <= i < |path.steps|
      ensures Enabled(cfg, path.states[i], path.steps[i]) && path.states[i + 1] == Apply(cfg, path.states[i], path.steps[i])
    {
      if i >= n {
        assert path.steps[i] == b.steps[i - n] && path.states[i] == b.states[i - n] && path.states[i + 1] == b.states[i - n + 1];
      }
    }
  }

  /** Extends a path by one enabled step. */
  lemma Then(cfg: Config, s: State, path: Path, m: State, step: Step) returns (longer: Path, e: State)
    requires Leads(cfg, s, path, m) && Enabled(cfg, m, step)
    ensures Leads(cfg, s, longer, e) && e == Apply(cfg, m, step) && longer.steps == path.steps + [step]
  {
    var last: Path;
    last, e := First(cfg, m, step);
    longer := Both(cfg, s, path, m, last, e);
  }

  /** A popped id is locked and its row read. */
  lemma LockedAndRead(cfg: Config, s: State, w: nat, stamp: int) returns (path: Path, e: State)
    requires w in s.workers && s.workers[w].Popped? && Claimable(s.rows, s.workers[w].id)
    requires s.workers[w].since <= stamp == s.now && cfg.holdMs >= 0
    ensures Leads(cfg, s, path, e)
    ensures var id := s.workers[w].id;
            e == s.(rows := Deliveries.Lock(s.rows, id, stamp), workers := s.workers[w := Sending(id, stamp, s.rows[id].attempt + 1)])
  {
    path, e := First(cfg, s, Works(w, Lock(stamp)));
    path, e := Then(cfg, s, path, e, Works(w, Read));
  }
}
