/**
 * The state stack of the `graphmgr` library (graphmgr/src/lib.rs).
 *
 * A state manager keeps a stack of states. Pushing, popping and replacing call the
 * lifecycle hooks of the states involved (`pause`, `create`, `quit`, `resume`), and
 * each hook answers with a `StackAction` that is carried out at once, so the three
 * procedures recurse into each other. `run` then drives one frame per iteration:
 * `update` on the top state, and `render` plus frame pacing when `update` asked for
 * nothing.
 *
 * States are values of a type `S` and the hooks are functions returning the updated
 * state with its action; the calls made are logged. Hooks may ask for new actions
 * forever, so nested actions are carried out up to a depth of `fuel`; an action met
 * beyond that depth is dropped and the configuration marked `exhausted`.
 */
module StateStack {
  import opened Wrappers
  import Keyboard

  /** `StackAction`: what a hook asks the manager to do next. */
  datatype StackAction<S, M> = Pop(msg: M) | Push(state: S) | Replace(state: S) | Nop

  /**
   * The hooks of trait `State`: each takes the state (and its argument) and returns the
   * state as the hook left it with the action it asks for.
   */
  datatype Hooks<!S, !M> = Hooks(
    create: S -> (S, StackAction<S, M>),
    pause: S -> (S, StackAction<S, M>),
    resume: (S, M) -> (S, StackAction<S, M>),
    quit: S -> (S, StackAction<S, M>),
    update: (S, Keyboard.KeyEdges) -> (S, StackAction<S, M>),
    render: S -> S)

  /** A call the manager makes: a hook on a state (as it was before the call), or a sleep. */
  datatype Call<S, M> =
    | Create(s: S)
    | Pause(s: S)
    | Resume(s: S, msg: M)
    | Quit(s: S)
    | Update(s: S, edges: Keyboard.KeyEdges)
    | Render(s: S)
    | Sleep(ms: nat)

  /** The lifecycle hooks, the only ones the stack procedures call. */
  predicate IsLifecycle<S, M>(call: Call<S, M>)
  {
    call.Create? || call.Pause? || call.Resume? || call.Quit?
  }

  /** The stack (top last), the calls made so far, and whether an action was dropped. */
  datatype Config<S, M> = Config(stack: seq<S>, calls: seq<Call<S, M>>, exhausted: bool)

  function Top<S>(s: seq<S>): S
    requires |s| > 0
  {
    s[|s| - 1]
  }

  /** The stack with its top state replaced, as a hook taking `&mut self` leaves it. */
  function SetTop<S>(s: seq<S>, x: S): (r: seq<S>)
    requires |s| > 0
    ensures |r| == |s| && Top(r) == x && r[..|s| - 1] == s[..|s| - 1]
  {
    s[..|s| - 1] + [x]
  }

  /**
   * `r` continues `c`: the earlier calls are kept, every new call is a lifecycle hook,
   * and a dropped action stays recorded.
   */
  ghost predicate Extends<S, M>(c: Config<S, M>, r: Config<S, M>)
  {
    |r.calls| >= |c.calls| && r.calls[..|c.calls|] == c.calls
    && (forall i :: |c.calls| <= i < |r.calls| ==> IsLifecycle(r.calls[i]))
    && (c.exhausted ==> r.exhausted)
  }

  lemma ExtendsTransitive<S, M>(a: Config<S, M>, b: Config<S, M>, c: Config<S, M>)
    requires Extends(a, b) && Extends(b, c)
    ensures Extends(a, c)
  {
    assert c.calls[..|a.calls|] == c.calls[..|b.calls|][..|a.calls|];
  }

  /** `c` with one more lifecycle call logged. */
  function Log<S, M>(c: Config<S, M>, call: Call<S, M>): (r: Config<S, M>)
    requires IsLifecycle(call)
    ensures Extends(c, r)
  {
    c.(calls := c.calls + [call])
  }

  /** The configuration after carrying out action `a` (the `match` after every hook call). */
  function AfterAction<S, M>(h: Hooks<S, M>, fuel: nat, c: Config<S, M>, a: StackAction<S, M>): (r: Config<S, M>)
    ensures Extends(c, r)
    ensures a.Nop? ==> r == c
    decreases fuel, 0
  {
    match a
    case Nop => c
    case Pop(m) => if fuel == 0 then c.(exhausted := true) else AfterPop(h, fuel - 1, c, m).0
    case Push(s) => if fuel == 0 then c.(exhausted := true) else AfterPush(h, fuel - 1, c, s)
    case Replace(s) => if fuel == 0 then c.(exhausted := true) else AfterReplace(h, fuel - 1, c, s).0
  }

  /**
   * `push_to_stack`: pauses the top state (if any) and carries out its action, then
   * creates the new state and carries out that action, then pushes the new state.
   * Whatever the hooks asked for, the created state ends on top.
   */
  function AfterPush<S, M>(h: Hooks<S, M>, fuel: nat, c: Config<S, M>, s: S): (r: Config<S, M>)
    ensures Extends(c, r)
    ensures |r.stack| > 0 && Top(r.stack) == h.create(s).0
    decreases fuel, 2
  {
    var paused := if |c.stack| == 0 then c else AfterPause(h, fuel, c);
    var created := h.create(s);
    var r := AfterAction(h, fuel, Log(paused, Create(s)), created.1);
    ExtendsTransitive(c, paused, Log(paused, Create(s)));
    ExtendsTransitive(c, Log(paused, Create(s)), r);
    r.(stack := r.stack + [created.0])
  }

  /** The configuration after `pause` on the top state and its action. */
  function AfterPause<S, M>(h: Hooks<S, M>, fuel: nat, c: Config<S, M>): (r: Config<S, M>)
    requires |c.stack| > 0
    ensures Extends(c, r)
    decreases fuel, 1
  {
    var top := Top(c.stack);
    var res := h.pause(top);
    var logged := Log(c.(stack := SetTop(c.stack, res.0)), Pause(top));
    var r := AfterAction(h, fuel, logged, res.1);
    ExtendsTransitive(c, logged, r);
    r
  }

  /** The configuration after the popped state's `quit` and its action. */
  function AfterQuit<S, M>(h: Hooks<S, M>, fuel: nat, c: Config<S, M>): (r: Config<S, M>)
    requires |c.stack| > 0
    ensures Extends(c, r)
    decreases fuel, 1
  {
    var top := Top(c.stack);
    var res := h.quit(top);
    var logged := Log(c.(stack := c.stack[..|c.stack| - 1]), Quit(top));
    var r := AfterAction(h, fuel, logged, res.1);
    ExtendsTransitive(c, logged, r);
    r
  }

  /** The configuration after `resume(msg)` on the top state and its action. */
  function AfterResume<S, M>(h: Hooks<S, M>, fuel: nat, c: Config<S, M>, m: M): (r: Config<S, M>)
    requires |c.stack| > 0
    ensures Extends(c, r)
    decreases fuel, 1
  {
    var top := Top(c.stack);
    var res := h.resume(top, m);
    var logged := Log(c.(stack := SetTop(c.stack, res.0)), Resume(top, m));
    var r := AfterAction(h, fuel, logged, res.1);
    ExtendsTransitive(c, logged, r);
    r
  }

  /**
   * `pop_from_stack`: on an empty stack nothing happens and no state is returned.
   * Otherwise pops the top state, calls its `quit` and carries out that action, then
   * calls `resume(msg)` on the state now on top (if any) and carries out that action;
   * returns the popped state as `quit` left it.
   */
  function AfterPop<S, M>(h: Hooks<S, M>, fuel: nat, c: Config<S, M>, m: M): (r: (Config<S, M>, Option<S>))
    ensures Extends(c, r.0)
    ensures |c.stack| == 0 <==> r.1 == None
    ensures |c.stack| > 0 ==> r.1 == Some(h.quit(Top(c.stack)).0)
    decreases fuel, 2
  {
    if |c.stack| == 0 then (c, None)
    else
      var quitted := AfterQuit(h, fuel, c);
      var resumed := if |quitted.stack| == 0 then quitted else AfterResume(h, fuel, quitted, m);
      ExtendsTransitive(c, quitted, resumed);
      (resumed, Some(h.quit(Top(c.stack)).0))
  }

  /**
   * `replace_top_stack`: pops the top state (if any), calls its `quit` and carries out
   * that action, then creates the new state, carries out that action and pushes it.
   * No state is paused or resumed by the replacement itself.
   */
  function AfterReplace<S, M>(h: Hooks<S, M>, fuel: nat, c: Config<S, M>, s: S): (r: (Config<S, M>, Option<S>))
    ensures Extends(c, r.0)
    ensures |r.0.stack| > 0 && Top(r.0.stack) == h.create(s).0
    ensures |c.stack| == 0 <==> r.1 == None
    ensures |c.stack| > 0 ==> r.1 == Some(h.quit(Top(c.stack)).0)
    decreases fuel, 2
  {
    var quitted := if |c.stack| == 0 then c else AfterQuit(h, fuel, c);
    var created := h.create(s);
    var r := AfterAction(h, fuel, Log(quitted, Create(s)), created.1);
    ExtendsTransitive(c, quitted, Log(quitted, Create(s)));
    ExtendsTransitive(c, Log(quitted, Create(s)), r);
    (r.(stack := r.stack + [created.0]),
     if |c.stack| == 0 then None else Some(h.quit(Top(c.stack)).0))
  }

  /** Popping an empty stack calls no hook, changes nothing and returns no state. */
  lemma PopEmpty<S, M>(h: Hooks<S, M>, fuel: nat, c: Config<S, M>, m: M)
    requires |c.stack| == 0
    ensures AfterPop(h, fuel, c, m) == (c, None)
  {
  }

  /**
   * Popping a non-empty stack first quits the top state. Whatever `quit` asked for is
   * carried out in full before anything else: the log then continues with `resume(msg)`
   * on whatever state that left on top, if any. When `quit` asks for nothing, that is
   * the state below the popped one.
   */
  lemma PopQuitsThenResumes<S, M>(h: Hooks<S, M>, fuel: nat, c: Config<S, M>, m: M)
    requires |c.stack| > 0
    ensures var r := AfterPop(h, fuel, c, m).0;
      |r.calls| > |c.calls| && r.calls[|c.calls|] == Quit(Top(c.stack))
    ensures var r := AfterPop(h, fuel, c, m).0;
      h.quit(Top(c.stack)).1.Nop? && |c.stack| >= 2 ==>
        |r.calls| > |c.calls| + 1 && r.calls[|c.calls| + 1] == Resume(c.stack[|c.stack| - 2], m)
    ensures var r := AfterPop(h, fuel, c, m).0;
      var q := AfterQuit(h, fuel, c);
      |q.stack| > 0 ==>
        |r.calls| > |q.calls| && r.calls[..|q.calls|] == q.calls && r.calls[|q.calls|] == Resume(Top(q.stack), m)
  {
    var quitted := AfterQuit(h, fuel, c);
    var logged := Log(c.(stack := c.stack[..|c.stack| - 1]), Quit(Top(c.stack)));
    assert quitted.calls[..|logged.calls|] == logged.calls;
    assert quitted.calls[|c.calls|] == logged.calls[|c.calls|];
    var r := AfterPop(h, fuel, c, m).0;
    assert r.calls[..|quitted.calls|] == quitted.calls;
    assert r.calls[|c.calls|] == quitted.calls[|c.calls|];
    if h.quit(Top(c.stack)).1.Nop? && |c.stack| >= 2 {
      assert quitted == logged;
      var top := Top(quitted.stack);
      var res := h.resume(top, m);
      var logged2 := Log(quitted.(stack := SetTop(quitted.stack, res.0)), Resume(top, m));
      assert r == AfterResume(h, fuel, quitted, m);
      assert r.calls[..|logged2.calls|] == logged2.calls;
      assert r.calls[|c.calls| + 1] == logged2.calls[|c.calls| + 1];
    }
    if |quitted.stack| > 0 {
      var top := Top(quitted.stack);
      var logged2 := Log(quitted.(stack := SetTop(quitted.stack, h.resume(top, m).0)), Resume(top, m));
      assert r == AfterResume(h, fuel, quitted, m);
      assert r.calls[..|logged2.calls|] == logged2.calls;
      assert r.calls[..|quitted.calls|] == logged2.calls[..|quitted.calls|];
      assert r.calls[|quitted.calls|] == logged2.calls[|quitted.calls|];
    }
  }

  /**
   * Pushing onto a non-empty stack first pauses the top state and carries out whatever
   * `pause` asked for in full; only then is the new state created (on an empty stack,
   * creating it is the first call).
   */
  lemma PushPausesThenCreates<S, M>(h: Hooks<S, M>, fuel: nat, c: Config<S, M>, s: S)
    ensures var r := AfterPush(h, fuel, c, s);
      |c.stack| > 0 ==> |r.calls| > |c.calls| && r.calls[|c.calls|] == Pause(Top(c.stack))
    ensures var r := AfterPush(h, fuel, c, s);
      |c.stack| == 0 ==> |r.calls| > |c.calls| && r.calls[|c.calls|] == Create(s)
    ensures var r := AfterPush(h, fuel, c, s);
      exists j :: |c.calls| <= j < |r.calls| && r.calls[j] == Create(s)
        && (|c.stack| > 0 ==> j > |c.calls|)
    ensures var r := AfterPush(h, fuel, c, s);
      |c.stack| > 0 ==> var p := AfterPause(h, fuel, c);
        |r.calls| > |p.calls| && r.calls[..|p.calls|] == p.calls && r.calls[|p.calls|] == Create(s)
  {
    var r := AfterPush(h, fuel, c, s);
    var paused := if |c.stack| == 0 then c else AfterPause(h, fuel, c);
    if |c.stack| > 0 {
      var top := Top(c.stack);
      var logged := Log(c.(stack := SetTop(c.stack, h.pause(top).0)), Pause(top));
      assert paused.calls[..|logged.calls|] == logged.calls;
      assert paused.calls[|c.calls|] == logged.calls[|c.calls|];
    }
    var created := Log(paused, Create(s));
    assert r.calls[..|created.calls|] == created.calls;
    assert r.calls[|paused.calls|] == Create(s);
    if |c.stack| > 0 {
      assert r.calls[..|paused.calls|] == paused.calls;
      assert r.calls[|c.calls|] == paused.calls[|c.calls|];
    }
  }

  /**
   * Replacing calls no `pause` or `resume` of its own: when `quit` and `create` ask for
   * nothing, the only calls are `quit` on the old top (if any) and `create`.
   */
  lemma ReplaceQuitsAndCreates<S, M>(h: Hooks<S, M>, fuel: nat, c: Config<S, M>, s: S)
    requires |c.stack| > 0 ==> h.quit(Top(c.stack)).1.Nop?
    requires h.create(s).1.Nop?
    ensures var r := AfterReplace(h, fuel, c, s).0;
      r.calls == c.calls + (if |c.stack| > 0 then [Quit(Top(c.stack))] else []) + [Create(s)]
    ensures var r := AfterReplace(h, fuel, c, s).0;
      r.stack == (if |c.stack| > 0 then c.stack[..|c.stack| - 1] else []) + [h.create(s).0]
  {
  }

  /** On an empty stack a replacement still creates and pushes the new state, and pops nothing. */
  lemma ReplaceOnEmpty<S, M>(h: Hooks<S, M>, fuel: nat, c: Config<S, M>, s: S)
    requires |c.stack| == 0
    ensures var (r, popped) := AfterReplace(h, fuel, c, s);
      popped == None && |r.calls| > |c.calls| && r.calls[|c.calls|] == Create(s)
      && Top(r.stack) == h.create(s).0
  {
    var (r, _) := AfterReplace(h, fuel, c, s);
    var logged := Log(c, Create(s));
    assert r.calls[..|logged.calls|] == logged.calls;
    assert r.calls[|c.calls|] == logged.calls[|c.calls|];
  }

  /** No lifecycle hook ever asks for an action. */
  ghost predicate LifecycleNop<S(!new), M(!new)>(h: Hooks<S, M>)
  {
    (forall s :: h.create(s).1.Nop?)
    && (forall s :: h.pause(s).1.Nop?)
    && (forall s :: h.quit(s).1.Nop?)
    && (forall s, m :: h.resume(s, m).1.Nop?)
  }

  /** With hooks that ask for nothing, a push grows the stack by exactly the new state. */
  lemma NopPushGrows<S(!new), M(!new)>(h: Hooks<S, M>, fuel: nat, c: Config<S, M>, s: S)
    requires LifecycleNop(h)
    ensures var r := AfterPush(h, fuel, c, s);
      |r.stack| == |c.stack| + 1 && r.stack[..|c.stack|] == (if |c.stack| > 0 then SetTop(c.stack, h.pause(Top(c.stack)).0) else [])
      && r.exhausted == c.exhausted
  {
    assert h.create(s).1.Nop?;
    if |c.stack| > 0 {
      assert h.pause(Top(c.stack)).1.Nop?;
    }
  }

  /** With hooks that ask for nothing, popping a non-empty stack removes exactly its top. */
  lemma NopPopShrinks<S(!new), M(!new)>(h: Hooks<S, M>, fuel: nat, c: Config<S, M>, m: M)
    requires LifecycleNop(h)
    requires |c.stack| > 0
    ensures var r := AfterPop(h, fuel, c, m).0;
      |r.stack| == |c.stack| - 1 && r.exhausted == c.exhausted
      && (|c.stack| > 1 ==> r.stack == SetTop(c.stack[..|c.stack| - 1], h.resume(c.stack[|c.stack| - 2], m).0))
  {
    assert h.quit(Top(c.stack)).1.Nop?;
    if |c.stack| > 1 {
      assert h.resume(c.stack[|c.stack| - 2], m).1.Nop?;
    }
  }

  /** With hooks that ask for nothing, replacing on a non-empty stack keeps its length. */
  lemma NopReplaceKeepsLength<S(!new), M(!new)>(h: Hooks<S, M>, fuel: nat, c: Config<S, M>, s: S)
    requires LifecycleNop(h)
    requires |c.stack| > 0
    ensures var r := AfterReplace(h, fuel, c, s).0;
      |r.stack| == |c.stack| && r.stack == SetTop(c.stack, h.create(s).0) && r.exhausted == c.exhausted
  {
    assert h.quit(Top(c.stack)).1.Nop?;
    assert h.create(s).1.Nop?;
  }

  /**
   * The default hooks of trait `State`: `create`, `pause`, `resume` and `quit` leave the
   * state alone and ask for nothing; `update` and `render` have no default.
   */
  function DefaultHooks<S, M>(update: (S, Keyboard.KeyEdges) -> (S, StackAction<S, M>), render: S -> S): (h: Hooks<S, M>)
    ensures h.update == update && h.render == render
  {
    Hooks(s => (s, Nop), s => (s, Nop), (s, m) => (s, Nop), s => (s, Nop), update, render)
  }

  /** Every default lifecycle hook returns `Nop` and leaves its state unchanged. */
  lemma DefaultHooksNop<S(!new), M(!new)>(update: (S, Keyboard.KeyEdges) -> (S, StackAction<S, M>), render: S -> S)
    ensures LifecycleNop(DefaultHooks(update, render))
    ensures forall s :: DefaultHooks(update, render).create(s).0 == s
    ensures forall s :: DefaultHooks(update, render).pause(s).0 == s
    ensures forall s :: DefaultHooks(update, render).quit(s).0 == s
    ensures forall s, m :: DefaultHooks(update, render).resume(s, m).0 == s
  {
  }

  /** `run`'s frame interval in milliseconds, `1000 / fps`; `fps` must not be zero. */
  function FrameInterval(fps: nat): (ms: nat)
    requires fps > 0
    ensures ms * fps <= 1000 < (ms + 1) * fps
  {
    1000 / fps
  }

  /** The sleep at the end of a rendered frame: the rest of the interval, if any is left. */
  function SleepAmount(interval: nat, elapsed: nat): (ms: Option<nat>)
    ensures ms.Some? <==> elapsed < interval
    ensures ms.Some? ==> ms.value > 0 && elapsed + ms.value == interval
  {
    if elapsed < interval then Some(interval - elapsed) else None
  }

  /** What the outside world supplies to one frame: the key scan and the time since the last render. */
  datatype FrameInput = FrameInput(scan: bv64, elapsed: nat)

  /**
   * One frame of `run` on a non-empty stack, given this frame's key edges: `update` on the
   * top state; a requested action is carried out and the frame ends there; otherwise
   * `render` on the top state, then a sleep for the rest of the frame interval.
   */
  function AfterFrame<S, M>(h: Hooks<S, M>, fuel: nat, interval: nat, c: Config<S, M>, e: Keyboard.KeyEdges, elapsed: nat): Config<S, M>
    requires |c.stack| > 0
  {
    var top := Top(c.stack);
    var res := h.update(top, e);
    var updated := Config(SetTop(c.stack, res.0), c.calls + [Update(top, e)], c.exhausted);
    if res.1.Nop? then
      var sleep := SleepAmount(interval, elapsed);
      Config(SetTop(c.stack, h.render(res.0)),
             updated.calls + [Render(res.0)] + (if sleep.Some? then [Sleep(sleep.value)] else []),
             c.exhausted)
    else
      AfterAction(h, fuel, updated, res.1)
  }

  /**
   * The calls of a frame: `update` on the top state first; after a `Nop`, `render` on the
   * updated state and at most sleeps; after any other action, only lifecycle hooks.
   */
  lemma FrameLog<S, M>(h: Hooks<S, M>, fuel: nat, interval: nat, c: Config<S, M>, e: Keyboard.KeyEdges, elapsed: nat)
    requires |c.stack| > 0
    ensures var r := AfterFrame(h, fuel, interval, c, e, elapsed);
      |r.calls| > |c.calls| && r.calls[..|c.calls|] == c.calls
      && r.calls[|c.calls|] == Update(Top(c.stack), e)
      && (c.exhausted ==> r.exhausted)
    ensures var r := AfterFrame(h, fuel, interval, c, e, elapsed);
      h.update(Top(c.stack), e).1.Nop? ==>
        |r.calls| > |c.calls| + 1 && r.calls[|c.calls| + 1] == Render(h.update(Top(c.stack), e).0)
        && (forall i :: |c.calls| + 1 < i < |r.calls| ==> r.calls[i].Sleep?)
    ensures var r := AfterFrame(h, fuel, interval, c, e, elapsed);
      !h.update(Top(c.stack), e).1.Nop? ==>
        forall i :: |c.calls| < i < |r.calls| ==> IsLifecycle(r.calls[i])
  {
    var res := h.update(Top(c.stack), e);
    var updated := Config(SetTop(c.stack, res.0), c.calls + [Update(Top(c.stack), e)], c.exhausted);
    if !res.1.Nop? {
      var r := AfterAction(h, fuel, updated, res.1);
      assert r.calls[..|c.calls|] == r.calls[..|updated.calls|][..|c.calls|];
    }
  }

  /**
   * The frames of `run` from configuration `c`, with `previous` the last key scan: frames
   * go on while the stack is non-empty and input remains. Returns the final configuration
   * and the number of frames run.
   */
  function AfterFrames<S, M>(h: Hooks<S, M>, fuel: nat, interval: nat, c: Config<S, M>, previous: bv64, frames: seq<FrameInput>): (r: (Config<S, M>, nat))
    ensures r.1 <= |frames|
    ensures |r.0.stack| == 0 || r.1 == |frames|
    ensures r.1 < |frames| ==> |r.0.stack| == 0
    decreases |frames|
  {
    if |c.stack| == 0 || frames == [] then (c, 0)
    else
      var next := AfterFrame(h, fuel, interval, c, Keyboard.EdgesAfter(previous, frames[0].scan), frames[0].elapsed);
      var rest := AfterFrames(h, fuel, interval, next, frames[0].scan, frames[1..]);
      (rest.0, rest.1 + 1)
  }

  /** Every `render` call in `calls` comes right after an `update` on the same frame that returned `Nop`. */
  ghost predicate RendersAfterNop<S, M>(h: Hooks<S, M>, calls: seq<Call<S, M>>)
  {
    forall i :: 0 <= i < |calls| && calls[i].Render? ==>
      i > 0 && calls[i - 1].Update? && h.update(calls[i - 1].s, calls[i - 1].edges) == (calls[i].s, Nop)
  }

  /** A frame keeps the property: it renders only after an `update` that asked for nothing. */
  lemma FrameRendersAfterNop<S, M>(h: Hooks<S, M>, fuel: nat, interval: nat, c: Config<S, M>, e: Keyboard.KeyEdges, elapsed: nat)
    requires |c.stack| > 0
    requires RendersAfterNop(h, c.calls)
    ensures RendersAfterNop(h, AfterFrame(h, fuel, interval, c, e, elapsed).calls)
  {
    var r := AfterFrame(h, fuel, interval, c, e, elapsed);
    FrameLog(h, fuel, interval, c, e, elapsed);
    forall i | 0 <= i < |r.calls| && r.calls[i].Render?
      ensures i > 0 && r.calls[i - 1].Update? && h.update(r.calls[i - 1].s, r.calls[i - 1].edges) == (r.calls[i].s, Nop)
    {
      if i < |c.calls| {
        assert r.calls[i] == c.calls[i] && r.calls[i - 1] == c.calls[i - 1];
      }
    }
  }

  /**
   * Over any number of frames, `render` is called only in frames whose `update`
   * returned `Nop`, right after that `update`.
   */
  lemma {:induction false} FramesRenderAfterNop<S, M>(h: Hooks<S, M>, fuel: nat, interval: nat, c: Config<S, M>, previous: bv64, frames: seq<FrameInput>)
    requires RendersAfterNop(h, c.calls)
    ensures RendersAfterNop(h, AfterFrames(h, fuel, interval, c, previous, frames).0.calls)
    decreases |frames|
  {
    if |c.stack| > 0 && frames != [] {
      var e := Keyboard.EdgesAfter(previous, frames[0].scan);
      FrameRendersAfterNop(h, fuel, interval, c, e, frames[0].elapsed);
      var next := AfterFrame(h, fuel, interval, c, e, frames[0].elapsed);
      FramesRenderAfterNop(h, fuel, interval, next, frames[0].scan, frames[1..]);
    }
  }

  /** A frame count added to the number of frames run. */
  function Shifted<S, M>(r: (Config<S, M>, nat), n: nat): (Config<S, M>, nat)
  {
    (r.0, r.1 + n)
  }

  /** The frames from a non-empty stack are its first frame followed by the rest. */
  lemma FramesUnroll<S, M>(h: Hooks<S, M>, fuel: nat, interval: nat, c: Config<S, M>, previous: bv64, frames: seq<FrameInput>)
    requires |c.stack| > 0 && frames != []
    ensures AfterFrames(h, fuel, interval, c, previous, frames)
      == Shifted(AfterFrames(h, fuel, interval,
                             AfterFrame(h, fuel, interval, c, Keyboard.EdgesAfter(previous, frames[0].scan), frames[0].elapsed),
                             frames[0].scan, frames[1..]), 1)
  {
    var next := AfterFrame(h, fuel, interval, c, Keyboard.EdgesAfter(previous, frames[0].scan), frames[0].elapsed);
    var rest := AfterFrames(h, fuel, interval, next, frames[0].scan, frames[1..]);
    assert AfterFrames(h, fuel, interval, c, previous, frames) == (rest.0, rest.1 + 1);
  }

  /** No frame runs on an empty stack or without input. */
  lemma FramesDone<S, M>(h: Hooks<S, M>, fuel: nat, interval: nat, c: Config<S, M>, previous: bv64, frames: seq<FrameInput>)
    requires |c.stack| == 0 || frames == []
    ensures AfterFrames(h, fuel, interval, c, previous, frames) == (c, 0)
  {
  }

  /** One more frame keeps `run`'s loop invariant. */
  lemma FramesStep<S, M>(h: Hooks<S, M>, fuel: nat, interval: nat, start: Config<S, M>, scan: bv64,
                         frames: seq<FrameInput>, count: nat, c: Config<S, M>, previous: bv64)
    requires count < |frames| && |c.stack| > 0
    requires AfterFrames(h, fuel, interval, start, scan, frames)
      == Shifted(AfterFrames(h, fuel, interval, c, previous, frames[count..]), count)
    ensures AfterFrames(h, fuel, interval, start, scan, frames)
      == Shifted(AfterFrames(h, fuel, interval,
                             AfterFrame(h, fuel, interval, c, Keyboard.EdgesAfter(previous, frames[count].scan), frames[count].elapsed),
                             frames[count].scan, frames[count + 1..]), count + 1)
  {
    var rest := frames[count..];
    assert rest[0] == frames[count] && rest[1..] == frames[count + 1..];
    FramesUnroll(h, fuel, interval, c, previous, rest);
  }

  /**
   * `run`: pushes the initial state, then runs frames until the stack is empty. The
   * keyboard state is built from two scans and fetched once per frame.
   */
  function AfterRun<S, M>(h: Hooks<S, M>, fuel: nat, fps: nat, c: Config<S, M>, initial: S, scan0: bv64, scan1: bv64, frames: seq<FrameInput>): (r: (Config<S, M>, nat))
    requires fps > 0
  {
    AfterFrames(h, fuel, FrameInterval(fps), AfterPush(h, fuel, c, initial), scan1, frames)
  }

  /** From a fresh manager, a run renders only after `update`s that returned `Nop`. */
  lemma RunRendersAfterNop<S, M>(h: Hooks<S, M>, fuel: nat, fps: nat, initial: S, scan0: bv64, scan1: bv64, frames: seq<FrameInput>)
    requires fps > 0
    ensures RendersAfterNop(h, AfterRun(h, fuel, fps, Config([], [], false), initial, scan0, scan1, frames).0.calls)
  {
    var pushed := AfterPush(h, fuel, Config([], [], false), initial);
    assert forall i :: 0 <= i < |pushed.calls| ==> IsLifecycle(pushed.calls[i]);
    FramesRenderAfterNop(h, fuel, FrameInterval(fps), pushed, scan1, frames);
  }

  /**
   * `StateManager`: the stack of states, updated in place by the three mutually recursive
   * stack procedures and by `run`. The calls made and whether an action was dropped are
   * ghost state for the specification.
   */
  class StateManager<S, M> {
    const hooks: Hooks<S, M>
    var stack: seq<S>
    ghost var calls: seq<Call<S, M>>
    ghost var exhausted: bool

    ghost function Current(): Config<S, M>
      reads this
    {
      Config(stack, calls, exhausted)
    }

    /** `StateManager::new`: an empty stack. */
    constructor (hooks: Hooks<S, M>)
      ensures this.hooks == hooks
      ensures Current() == Config([], [], false)
    {
      this.hooks := hooks;
      stack := [];
      calls := [];
      exhausted := false;
    }

    /** The `match` on a hook's action: carries it out. */
    method Apply(fuel: nat, a: StackAction<S, M>)
      modifies this
      ensures Current() == AfterAction(hooks, fuel, old(Current()), a)
      decreases fuel, 0
    {
      match a
      case Nop =>
      case Pop(m) =>
        if fuel == 0 {
          exhausted := true;
        } else {
          var _ := PopFromStack(fuel - 1, m);
        }
      case Push(s) =>
        if fuel == 0 {
          exhausted := true;
        } else {
          PushToStack(fuel - 1, s);
        }
      case Replace(s) =>
        if fuel == 0 {
          exhausted := true;
        } else {
          var _ := ReplaceTopStack(fuel - 1, s);
        }
    }

    /** `push_to_stack`. */
    method PushToStack(fuel: nat, state: S)
      modifies this
      ensures Current() == AfterPush(hooks, fuel, old(Current()), state)
      decreases fuel, 2
    {
      ghost var c := Current();
      if |stack| > 0 {
        var top := stack[|stack| - 1];
        var res := hooks.pause(top);
        stack := SetTop(stack, res.0);
        calls := calls + [Pause(top)];
        Apply(fuel, res.1);
      }
      assert Current() == if |c.stack| == 0 then c else AfterPause(hooks, fuel, c);
      var created := hooks.create(state);
      calls := calls + [Create(state)];
      Apply(fuel, created.1);
      stack := stack + [created.0];
    }

    /** `pop_from_stack`: returns the popped state, if there was one. */
    method PopFromStack(fuel: nat, msg: M) returns (popped: Option<S>)
      modifies this
      ensures (Current(), popped) == AfterPop(hooks, fuel, old(Current()), msg)
      decreases fuel, 2
    {
      if |stack| == 0 {
        return None;
      }
      var frame := stack[|stack| - 1];
      stack := stack[..|stack| - 1];
      var res := hooks.quit(frame);
      calls := calls + [Quit(frame)];
      Apply(fuel, res.1);
      if |stack| > 0 {
        var top := stack[|stack| - 1];
        var resumed := hooks.resume(top, msg);
        stack := SetTop(stack, resumed.0);
        calls := calls + [Resume(top, msg)];
        Apply(fuel, resumed.1);
      }
      popped := Some(res.0);
    }

    /** `replace_top_stack`: returns the replaced state, if there was one. */
    method ReplaceTopStack(fuel: nat, state: S) returns (popped: Option<S>)
      modifies this
      ensures (Current(), popped) == AfterReplace(hooks, fuel, old(Current()), state)
      decreases fuel, 2
    {
      popped := None;
      if |stack| > 0 {
        var frame := stack[|stack| - 1];
        stack := stack[..|stack| - 1];
        var res := hooks.quit(frame);
        calls := calls + [Quit(frame)];
        Apply(fuel, res.1);
        popped := Some(res.0);
      }
      var created := hooks.create(state);
      calls := calls + [Create(state)];
      Apply(fuel, created.1);
      stack := stack + [created.0];
    }

    /** One iteration of `run`'s loop, after the keyboard fetch. */
    method Frame(fuel: nat, interval: nat, edges: Keyboard.KeyEdges, elapsed: nat)
      requires |stack| > 0
      modifies this
      ensures Current() == AfterFrame(hooks, fuel, interval, old(Current()), edges, elapsed)
    {
      var top := stack[|stack| - 1];
      var res := hooks.update(top, edges);
      stack := SetTop(stack, res.0);
      calls := calls + [Update(top, edges)];
      if !res.1.Nop? {
        Apply(fuel, res.1);
      } else {
        stack := SetTop(stack, hooks.render(res.0));
        calls := calls + [Render(res.0)];
        var sleep := SleepAmount(interval, elapsed);
        if sleep.Some? {
          calls := calls + [Sleep(sleep.value)];
        }
      }
    }

    /**
     * The loop of `run`: one frame per input until the stack is empty or the input runs
     * out; returns the number of frames run.
     */
    method RunFrames(keyboard: Keyboard.KeyboardTimedState, interval: nat, frames: seq<FrameInput>, fuel: nat) returns (count: nat)
      modifies this, keyboard
      ensures (Current(), count) == AfterFrames(hooks, fuel, interval, old(Current()), old(keyboard.current), frames)
    {
      ghost var start := Current();
      ghost var scan := keyboard.current;
      assert frames[0..] == frames;
      count := 0;
      while |stack| > 0 && count < |frames|
        invariant count <= |frames|
        invariant AfterFrames(hooks, fuel, interval, start, scan, frames)
          == Shifted(AfterFrames(hooks, fuel, interval, Current(), keyboard.current, frames[count..]), count)
        decreases |frames| - count
      {
        ghost var before := Current();
        ghost var previous := keyboard.current;
        keyboard.Fetch(frames[count].scan);
        var edges := keyboard.Snapshot();
        Frame(fuel, interval, edges, frames[count].elapsed);
        FramesStep(hooks, fuel, interval, start, scan, frames, count, before, previous);
        count := count + 1;
      }
      FramesDone(hooks, fuel, interval, Current(), keyboard.current, frames[count..]);
    }

    /**
     * `run`: pushes `initial`, then runs one frame per input until the stack is empty or
     * the input runs out; returns the number of frames run. The clock and the sleep are
     * the caller's: each input carries the time elapsed since the last render.
     */
    method Run(initial: S, fps: nat, scan0: bv64, scan1: bv64, frames: seq<FrameInput>, fuel: nat) returns (count: nat)
      requires fps > 0
      modifies this
      ensures (Current(), count) == AfterRun(hooks, fuel, fps, old(Current()), initial, scan0, scan1, frames)
      ensures count < |frames| ==> |stack| == 0
      ensures |stack| > 0 ==> count == |frames|
    {
      var interval := FrameInterval(fps);
      var keyboard := new Keyboard.KeyboardTimedState(scan0, scan1);
      PushToStack(fuel, initial);
      count := RunFrames(keyboard, interval, frames, fuel);
    }
  }
}
