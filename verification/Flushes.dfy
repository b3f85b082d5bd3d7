/** How often a handle sends what was written to it. */
module Flushes {
  import opened Prelude
  import opened Api
  import opened FsSpec
  import opened Runs

  /** This event is a flush of h that sends something, and succeeds. */
  predicate Sends(cfg: FsConfig, s: FsState, e: Event, h: nat) {
    e.op == DoFlush(h) && Dirty(s, h) && FlushHandle(s, cfg, e.env, h).1.None?
  }

  function SendCount(cfg: FsConfig, s: FsState, run: seq<Event>, h: nat): nat
    decreases |run|
  {
    if run == [] then 0
    else (if Sends(cfg, s, run[0], h) then 1 else 0) + SendCount(cfg, Step(cfg, s, run[0].env, run[0].op), run[1..], h)
  }

  function WriteCount(cfg: FsConfig, s: FsState, run: seq<Event>, h: nat): nat
    decreases |run|
  {
    if run == [] then 0
    else
      (if Writes(cfg, s, run[0], h) then 1 else 0) + WriteCount(cfg, Step(cfg, s, run[0].env, run[0].op), run[1..], h)
  }

  /** Only an accepted write makes a handle dirty, and a flush that sends makes it clean. */
  lemma DirtyBalance(cfg: FsConfig, s: FsState, e: Event, h: nat)
    ensures
      var after := Dirty(Step(cfg, s, e.env, e.op), h);
      && (after ==> Dirty(s, h) || Writes(cfg, s, e, h))
      && (Sends(cfg, s, e, h) ==> !after)
  {
    if !TouchesFiles(e.op) {
      FilesUntouched(cfg, s, e.env, e.op);
    } else if e.op.DoOpen? {
      OpenedFiles(cfg, s, e.env, e.op.id);
    } else if e.op.DoFlush? {
      FlushedFiles(cfg, s, e.env, e.op.h);
    }
  }

  /** Over any run a handle sends at most once per write, counting a pending one. */
  lemma {:induction false} AtMostOncePerWrite(cfg: FsConfig, s: FsState, run: seq<Event>, h: nat)
    ensures SendCount(cfg, s, run, h) <= (if Dirty(s, h) then 1 else 0) + WriteCount(cfg, s, run, h)
    decreases |run|
  {
    if run != [] {
      DirtyBalance(cfg, s, run[0], h);
      AtMostOncePerWrite(cfg, Step(cfg, s, run[0].env, run[0].op), run[1..], h);
    }
  }

  /** Between two writes, then, at most one flush sends anything. */
  lemma AtMostOnceBetweenWrites(cfg: FsConfig, s: FsState, run: seq<Event>, h: nat)
    requires WriteCount(cfg, s, run, h) == 0
    ensures SendCount(cfg, s, run, h) <= 1
    ensures !Dirty(s, h) ==> SendCount(cfg, s, run, h) == 0
  {
    AtMostOncePerWrite(cfg, s, run, h);
  }

  // ---- Handle numbers ----

  /** Handle numbers only grow, and a number below the counter that is not open stays
      unused for ever. */
  lemma {:induction false} HandlesNeverReused(cfg: FsConfig, s: FsState, run: seq<Event>, h: nat)
    requires Inv(s) && h < s.nextHandle && h !in s.files
    ensures h !in Run(cfg, s, run).files && s.nextHandle <= Run(cfg, s, run).nextHandle
    decreases |run|
  {
    if run != [] {
      StepKeepsInv(cfg, s, run[0].env, run[0].op);
      HandlesStep(cfg, s, run[0].env, run[0].op, h);
      HandlesNeverReused(cfg, Step(cfg, s, run[0].env, run[0].op), run[1..], h);
    }
  }

  lemma HandlesStep(cfg: FsConfig, s: FsState, env: Env, op: Op, h: nat)
    requires h < s.nextHandle && h !in s.files
    ensures h !in Step(cfg, s, env, op).files && s.nextHandle <= Step(cfg, s, env, op).nextHandle
  {
    if !TouchesFiles(op) {
      FilesUntouched(cfg, s, env, op);
    } else if op.DoOpen? {
      OpenedFiles(cfg, s, env, op.id);
    } else if op.DoFlush? {
      FlushedFiles(cfg, s, env, op.h);
    }
  }
}
