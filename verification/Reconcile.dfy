/** The React component of `dalaran_js/web-viewer-react/index.js` over the start/stop state of
    `WebViewer` in `dalaran_js/web-viewer/index.ts`: which recordings are open in the viewer
    after any interleaving of property updates, restarts and asynchronous starts. */
module Reconcile {
  import opened Graphs
  import opened Runs
  import opened Texts

  type Url(==, !new)

  datatype ViewerState = Stopped | Starting | Ready

  ghost function SetOf(urls: seq<Url>): set<Url> {
    set u | u in urls
  }

  // ----- diff and syncRecordings -----

  function Filtered(urls: seq<Url>, drop: seq<Url>): seq<Url> {
    if urls == [] then []
    else
      var last := urls[|urls| - 1];
      Filtered(urls[..|urls| - 1], drop) + if last in drop then [] else [last]
  }

  lemma {:induction false} FilteredIsDifference(urls: seq<Url>, drop: seq<Url>)
    ensures SetOf(Filtered(urls, drop)) == SetOf(urls) - SetOf(drop)
    decreases |urls|
  {
    if urls != [] {
      var front, last := urls[..|urls| - 1], urls[|urls| - 1];
      FilteredIsDifference(front, drop);
      assert urls == front + [last];
      assert SetOf(urls) == SetOf(front) + {last};
      assert SetOf(Filtered(urls, drop)) == SetOf(Filtered(front, drop)) + if last in drop then {} else {last};
    }
  }

  /** The open set after closing what left `prev` and opening what is new in `current`. */
  ghost function Synced(open: set<Url>, prev: seq<Url>, current: seq<Url>): set<Url> {
    open - (SetOf(prev) - SetOf(current)) + (SetOf(current) - SetOf(prev))
  }

  // ----- one viewer -----

  /** How far the promise of `start` has come; `Idle` before `start` is called. */
  datatype Phase = Idle | Loading | StartingHandle | Resolved | Rejected | CalledBack

  /** What matters of a `WebViewer`: `open` are the receivers of its `#handle`. */
  datatype Viewer = Viewer(state: ViewerState, hasHandle: bool, open: set<Url>, initial: seq<Url>, phase: Phase)

  /** A new viewer with `start` called on it. */
  function Started(initial: seq<Url>): Viewer {
    Viewer(Starting, false, {}, initial, Loading)
  }

  function Halted(v: Viewer): Viewer {
    if v.state == Stopped then v else v.(state := Stopped, hasHandle := false, open := {})
  }

  function AfterLoaded(v: Viewer): Viewer {
    if v.state != Starting then v.(phase := Resolved) else v.(hasHandle := true, phase := StartingHandle)
  }

  ghost function AfterHandleStarted(v: Viewer): Viewer {
    if v.state != Starting then v.(phase := Resolved)
    else v.(state := Ready, open := v.open + SetOf(v.initial), phase := Resolved)
  }

  function AfterStartFails(v: Viewer): Viewer {
    Halted(v).(phase := Rejected)
  }

  ghost function AfterCallback(v: Viewer, dlr: seq<Url>): Viewer {
    if v.state != Ready then v.(phase := CalledBack)
    else v.(open := Synced(v.open, v.initial, dlr), phase := CalledBack)
  }

  ghost function Resynced(v: Viewer, prev: seq<Url>, dlr: seq<Url>): Viewer {
    if v.state == Ready then v.(open := Synced(v.open, prev, dlr)) else v
  }

  /** `start` is asynchronous: each stretch between two of its suspensions is a method here, and
      `initial` and `phase` hold its argument and its position. */
  class WebViewer {
    var state: ViewerState
    var hasHandle: bool
    var open: set<Url>
    var initial: seq<Url>
    var phase: Phase

    ghost function View(): Viewer
      reads this
    {
      Viewer(state, hasHandle, open, initial, phase)
    }

    constructor ()
      ensures View() == Viewer(Stopped, false, {}, [], Idle)
    {
      state, hasHandle, open, initial, phase := Stopped, false, {}, [], Idle;
    }

    method Start(dlr: seq<Url>)
      requires View() == Viewer(Stopped, false, {}, [], Idle)
      modifies this
      ensures View() == Started(dlr)
    {
      if state != Stopped {
        return;
      }
      state := Starting;
      initial, phase := dlr, Loading;
    }

    method LoadEnds(loaded: bool)
      modifies this
      ensures View() == if loaded then AfterLoaded(old(View())) else AfterStartFails(old(View()))
      ensures loaded && old(state) == Starting ==> state == Starting && hasHandle && phase == StartingHandle
    {
      if !loaded {
        Stop();
        phase := Rejected;
      } else if state != Starting {
        phase := Resolved;
      } else {
        hasHandle, phase := true, StartingHandle;
      }
    }

    method HandleStartEnds(started: bool)
      requires state == Starting ==> hasHandle
      modifies this
      ensures View() == if started then AfterHandleStarted(old(View())) else AfterStartFails(old(View()))
      ensures started && old(state) == Starting ==>
        state == Ready && hasHandle && open == old(open) + SetOf(old(initial)) && phase == Resolved
    {
      if !started {
        Stop();
        phase := Rejected;
      } else if state != Starting {
        phase := Resolved;
      } else {
        state := Ready;
        var _ := Open(initial);
        phase := Resolved;
      }
    }

    /** The function `startViewer` chains to the promise of `start`. */
    method StartCallback(dlr: seq<Url>)
      requires state == Ready ==> hasHandle
      modifies this
      ensures View() == AfterCallback(old(View()), dlr)
    {
      if state == Ready {
        SyncRecordings(initial, dlr);
      }
      phase := CalledBack;
    }

    /** `ok` is false when the viewer has no handle and the method throws. */
    method Open(urls: seq<Url>) returns (ok: bool)
      modifies `open
      ensures ok <==> hasHandle
      ensures open == if ok then old(open) + SetOf(urls) else old(open)
    {
      if !hasHandle {
        return false;
      }
      for i := 0 to |urls|
        invariant open == old(open) + SetOf(urls[..i])
      {
        assert urls[..i + 1] == urls[..i] + [urls[i]];
        open := open + {urls[i]};
      }
      assert urls[..|urls|] == urls;
      ok := true;
    }

    method Close(urls: seq<Url>) returns (ok: bool)
      modifies `open
      ensures ok <==> hasHandle
      ensures open == if ok then old(open) - SetOf(urls) else old(open)
    {
      if !hasHandle {
        return false;
      }
      for i := 0 to |urls|
        invariant open == old(open) - SetOf(urls[..i])
      {
        assert urls[..i + 1] == urls[..i] + [urls[i]];
        open := open - {urls[i]};
      }
      assert urls[..|urls|] == urls;
      ok := true;
    }

    method Stop()
      modifies this
      ensures View() == Halted(old(View()))
    {
      if state == Stopped {
        return;
      }
      state := Stopped;
      hasHandle := false;
      open := {};
    }

    method SyncRecordings(prev: seq<Url>, current: seq<Url>)
      requires hasHandle
      modifies `open
      ensures open == Synced(old(open), prev, current)
    {
      var added := Filtered(current, prev);
      var removed := Filtered(prev, current);
      FilteredIsDifference(current, prev);
      FilteredIsDifference(prev, current);
      if |removed| > 0 {
        var _ := Close(removed);
      }
      assert open == old(open) - SetOf(removed);
      if |added| > 0 {
        var _ := Open(added);
      }
    }
  }

  /** The React component: `handle` is replaced, never shared, and `dlr` is its property. */
  class ViewerComponent {
    var handle: WebViewer
    var dlr: seq<Url>

    /** The constructor and `componentDidMount`. */
    constructor (dlr: seq<Url>)
      ensures fresh(handle) && handle.View() == Started(dlr) && this.dlr == dlr
    {
      handle := new WebViewer();
      this.dlr := dlr;
      new;
      handle.Start(dlr);
    }

    /** `componentDidUpdate`; `restart` when one of the start-up options has changed. */
    method DidUpdate(prev: seq<Url>, restart: bool)
      requires handle.state == Ready ==> handle.hasHandle
      modifies this, handle
      ensures dlr == old(dlr)
      ensures restart ==> fresh(handle) && handle.View() == Started(dlr)
      ensures restart ==> old(handle).View() == Halted(old(handle.View()))
      ensures !restart ==> handle == old(handle) && handle.View() == Resynced(old(handle.View()), prev, dlr)
    {
      if restart {
        handle.Stop();
        handle := new WebViewer();
        handle.Start(dlr);
      } else if handle.state == Ready {
        handle.SyncRecordings(prev, dlr);
      }
    }

    /** `componentWillUnmount` */
    method WillUnmount()
      modifies handle
      ensures handle.View() == Halted(old(handle.View()))
    {
      handle.Stop();
    }
  }

  // ----- the component, its viewers and their promises -----

  /** All viewers the component has created, the current one last, and the `dlr` property. */
  datatype Component = Component(viewers: seq<Viewer>, dlr: seq<Url>)

  datatype Step =
    | Update(dlr: seq<Url>)
    | Restart(dlr: seq<Url>)       // a start-up option changed as well
    | Unmount
    | Loaded(i: nat)
    | HandleStarted(i: nat)
    | StartFails(i: nat)
    | Crash(i: nat)                // `#fail` of a running viewer
    | Callback(i: nat)             // the `.then` of `startViewer`

  function Current(c: Component): nat
    requires c.viewers != []
  {
    |c.viewers| - 1
  }

  function Put(c: Component, i: nat, v: Viewer): Component
    requires i < |c.viewers|
  {
    c.(viewers := c.viewers[i := v])
  }

  ghost function AfterUpdate(c: Component, dlr: seq<Url>): Component
    requires c.viewers != []
  {
    Put(c, Current(c), Resynced(c.viewers[Current(c)], c.dlr, dlr)).(dlr := dlr)
  }

  ghost function Next(c: Component, step: Step): Option<Component> {
    if c.viewers == [] then None else
    match step
    case Update(dlr) => Some(AfterUpdate(c, dlr))
    case Restart(dlr) =>
      var halted := Put(c, Current(c), Halted(c.viewers[Current(c)]));
      Some(Component(halted.viewers + [Started(dlr)], dlr))
    case Unmount => Some(Put(c, Current(c), Halted(c.viewers[Current(c)])))
    case Loaded(i) =>
      if i < |c.viewers| && c.viewers[i].phase == Loading then
        Some(Put(c, i, AfterLoaded(c.viewers[i])))
      else None
    case HandleStarted(i) =>
      if i < |c.viewers| && c.viewers[i].phase == StartingHandle then Some(Put(c, i, AfterHandleStarted(c.viewers[i])))
      else None
    case StartFails(i) =>
      if i < |c.viewers| && (c.viewers[i].phase == Loading || c.viewers[i].phase == StartingHandle) then
        Some(Put(c, i, AfterStartFails(c.viewers[i])))
      else None
    case Crash(i) =>
      if i < |c.viewers| && c.viewers[i].state == Ready then Some(Put(c, i, Halted(c.viewers[i]))) else None
    case Callback(i) =>
      if i < |c.viewers| && c.viewers[i].phase == Resolved then Some(Put(c, i, AfterCallback(c.viewers[i], c.dlr)))
      else None
  }

  /** After `componentDidMount`. */
  function Mounted(dlr: seq<Url>): Component {
    Component([Started(dlr)], dlr)
  }

  // ----- the invariant -----

  ghost predicate Sound(v: Viewer, dlr: seq<Url>) {
    && (v.hasHandle <==> v.state == Ready || (v.state == Starting && v.phase == StartingHandle))
    && (!v.hasHandle ==> v.open == {})
    && (v.state == Starting ==> (v.phase == Loading || v.phase == StartingHandle) && v.open == {})
    && (v.state == Ready ==> v.phase == Resolved || v.phase == CalledBack)
    && (v.state == Ready && v.phase == Resolved ==> Between(v, dlr))
    && (v.state == Ready && v.phase == CalledBack ==> v.open == SetOf(dlr))
  }

  /** Between the end of `start` and its callback: updates in that gap were applied on top of
      what the start opened. */
  ghost predicate Between(v: Viewer, dlr: seq<Url>) {
    v.open <= SetOf(v.initial) + SetOf(dlr) && SetOf(v.initial) * SetOf(dlr) <= v.open
  }

  ghost predicate Inv(c: Component) {
    && c.viewers != []
    && (forall i :: 0 <= i < |c.viewers| - 1 ==> Halted(c.viewers[i]) == c.viewers[i] && Sound(c.viewers[i], c.dlr))
    && Sound(c.viewers[|c.viewers| - 1], c.dlr)
  }

  lemma SyncClosesTheGap(open: set<Url>, initial: seq<Url>, dlr: seq<Url>)
    requires open <= SetOf(initial) + SetOf(dlr) && SetOf(initial) * SetOf(dlr) <= open
    ensures Synced(open, initial, dlr) == SetOf(dlr)
  {
    var result := Synced(open, initial, dlr);
    forall u ensures u in result <==> u in SetOf(dlr) {
      if u in SetOf(initial) && u in SetOf(dlr) { assert u in SetOf(initial) * SetOf(dlr); }
    }
  }

  lemma SyncFollowsUpdates(open: set<Url>, initial: seq<Url>, prev: seq<Url>, dlr: seq<Url>)
    requires open <= SetOf(initial) + SetOf(prev) && SetOf(initial) * SetOf(prev) <= open
    ensures Synced(open, prev, dlr) <= SetOf(initial) + SetOf(dlr)
    ensures SetOf(initial) * SetOf(dlr) <= Synced(open, prev, dlr)
  {
    forall u | u in SetOf(initial) * SetOf(dlr) ensures u in Synced(open, prev, dlr) {
      if u in SetOf(prev) { assert u in SetOf(initial) * SetOf(prev); }
    }
  }

  lemma {:induction false} SyncIsExact(prev: seq<Url>, dlr: seq<Url>)
    ensures Synced(SetOf(prev), prev, dlr) == SetOf(dlr)
  {
  }

  lemma UpdateStaysSound(v: Viewer, prev: seq<Url>, dlr: seq<Url>)
    requires Sound(v, prev)
    ensures Sound(Resynced(v, prev, dlr), dlr)
  {
    if v.state == Ready {
      if v.phase == Resolved {
        SyncFollowsUpdates(v.open, v.initial, prev, dlr);
      } else {
        SyncIsExact(prev, dlr);
      }
    }
  }

  lemma CallbackStaysSound(v: Viewer, dlr: seq<Url>)
    requires Sound(v, dlr) && v.phase == Resolved
    ensures Sound(AfterCallback(v, dlr), dlr)
  {
    if v.state == Ready {
      SyncClosesTheGap(v.open, v.initial, dlr);
    }
  }

  lemma StartedStaysSound(v: Viewer, dlr: seq<Url>)
    requires Sound(v, dlr) && v.phase == StartingHandle
    ensures Sound(AfterHandleStarted(v), dlr)
  {
    if v.state == Starting { assert AfterHandleStarted(v).open == SetOf(v.initial); }
  }

  lemma StepKeepsInv(c: Component, step: Step)
    requires Inv(c) && Next(c, step).Some?
    ensures Inv(Next(c, step).value)
  {
    match step
    case Update(dlr) => UpdateStaysSound(c.viewers[Current(c)], c.dlr, dlr);
    case HandleStarted(i) => StartedStaysSound(c.viewers[i], c.dlr);
    case Callback(i) => CallbackStaysSound(c.viewers[i], c.dlr);
    case _ =>
  }

  lemma {:induction false} RunKeepsInv(c: Component, steps: seq<Step>, d: Component)
    requires Inv(c) && Leads(Next, c, steps, d)
    ensures Inv(d)
    decreases |steps|
  {
    if steps != [] {
      StepKeepsInv(c, steps[0]);
      RunKeepsInv(Next(c, steps[0]).value, steps[1..], d);
    }
  }

  // ----- which viewers are ready -----

  /** The steps since the current viewer was started. */
  function SinceStart(steps: seq<Step>): seq<Step> {
    if steps == [] then []
    else
      var last := steps[|steps| - 1];
      if last.Restart? then [] else SinceStart(steps[..|steps| - 1]) + [last]
  }

  /** The property that the component was given last. */
  function LatestProperty(dlr: seq<Url>, steps: seq<Step>): seq<Url> {
    if steps == [] then dlr
    else
      var last := steps[|steps| - 1];
      if last.Update? || last.Restart? then last.dlr else LatestProperty(dlr, steps[..|steps| - 1])
  }

  /** Something has stopped viewer `i`. */
  predicate Ends(step: Step, i: nat) {
    step == Unmount || step == StartFails(i) || step == Crash(i)
  }

  ghost predicate Ended(steps: seq<Step>, i: nat) {
    exists k :: 0 <= k < |steps| && Ends(steps[k], i)
  }

  /** A viewer is stopped if something has stopped it, and else as far as its promise has come. */
  ghost predicate Follows(v: Viewer, ended: bool) {
    && (v.state == Stopped <==> ended)
    && (!ended ==> (v.state == Starting <==> v.phase == Loading || v.phase == StartingHandle))
    && (!ended ==> (v.state == Ready <==> v.phase == Resolved || v.phase == CalledBack))
  }

  lemma EndedOneMore(steps: seq<Step>, step: Step, i: nat)
    ensures Ended(steps + [step], i) <==> Ended(steps, i) || Ends(step, i)
  {
    var more := steps + [step];
    assert more[|steps|] == step && forall k :: 0 <= k < |steps| ==> more[k] == steps[k];
  }

  lemma StepKeepsFollowing(c: Component, step: Step, ended: bool)
    requires Inv(c) && Next(c, step).Some? && Follows(c.viewers[Current(c)], ended)
    ensures
      var d := Next(c, step).value;
      d.viewers != [] && if step.Restart? then Follows(d.viewers[Current(d)], false)
      else Current(d) == Current(c) && Follows(d.viewers[Current(d)], ended || Ends(step, Current(c)))
  {
  }

  lemma {:induction false} CurrentFollows(dlr: seq<Url>, steps: seq<Step>, c: Component)
    requires Leads(Next, Mounted(dlr), steps, c)
    ensures Inv(c) && Follows(c.viewers[Current(c)], Ended(SinceStart(steps), Current(c)))
    ensures c.dlr == LatestProperty(dlr, steps)
    decreases |steps|
  {
    RunKeepsInv(Mounted(dlr), steps, c);
    if steps != [] {
      var n := |steps| - 1;
      var b := LeadsButLast(Next, Mounted(dlr), steps, c);
      CurrentFollows(dlr, steps[..n], b);
      StepKeepsFollowing(b, steps[n], Ended(SinceStart(steps[..n]), Current(b)));
      EndedOneMore(SinceStart(steps[..n]), steps[n], Current(b));
    }
  }

  /** Once the callback of the current viewer's start has run, that viewer is ready, and its open URLs
      are those of the latest `dlr` property, exactly if it was not unmounted, has not crashed and its
      start has not failed. In general the current viewer is stopped exactly if one of these has
      happened, and is otherwise ready exactly if its start has come to an end. */
  lemma {:induction false} OpenMatchesTheProperty(dlr: seq<Url>, steps: seq<Step>, c: Component)
    requires Leads(Next, Mounted(dlr), steps, c)
    ensures c.viewers != []
    ensures
      var v, ended := c.viewers[Current(c)], Ended(SinceStart(steps), Current(c));
      && (v.state == Stopped <==> ended)
      && (v.state == Ready <==> !ended && (v.phase == Resolved || v.phase == CalledBack))
      && (v.state == Ready && v.phase == CalledBack ==> v.open == SetOf(LatestProperty(dlr, steps)))
  {
    CurrentFollows(dlr, steps, c);
  }

  lemma LeadsThrough(c: Component, first: Step, d: Component, second: Step, e: Component)
    requires Next(c, first) == Some(d) && Next(d, second) == Some(e)
    ensures Leads(Next, c, [first, second], e)
  {
    assert [first, second][1..] == [second] && [second][1..] == [];
    assert Leads(Next, d, [second], e);
  }

  /** When loading and the handle's start succeed and the callback runs, a viewer that was starting is
      ready, with the property's URLs open. */
  lemma {:induction false} StartSucceeds(c: Component) returns (steps: seq<Step>, d: Component)
    requires Inv(c) && c.viewers[Current(c)].state == Starting && c.viewers[Current(c)].phase == Loading
    ensures steps == [Loaded(Current(c)), HandleStarted(Current(c)), Callback(Current(c))]
    ensures Leads(Next, c, steps, d) && d.viewers != [] && d.dlr == c.dlr
    ensures
      var v := d.viewers[Current(d)];
      v.state == Ready && v.hasHandle && v.phase == CalledBack && v.open == SetOf(c.dlr)
  {
    var i := Current(c);
    var loaded := Next(c, Loaded(i)).value;
    var started := Next(loaded, HandleStarted(i)).value;
    d := Next(started, Callback(i)).value;
    steps := [Loaded(i), HandleStarted(i), Callback(i)];
    LeadsThrough(loaded, HandleStarted(i), started, Callback(i), d);
    assert steps[1..] == [HandleStarted(i), Callback(i)];
    RunKeepsInv(c, steps, d);
  }

  /** Nothing a superseded viewer's promise still does opens anything or touches the others. */
  lemma SupersededViewersAreInert(dlr: seq<Url>, steps: seq<Step>, c: Component, step: Step, i: nat)
    requires Leads(Next, Mounted(dlr), steps, c) && Next(c, step).Some?
    requires step == Loaded(i) || step == HandleStarted(i) || step == StartFails(i) || step == Callback(i)
    requires i < |c.viewers| - 1
    ensures
      var d := Next(c, step).value;
      && d == Put(c, i, c.viewers[i].(phase := d.viewers[i].phase))
      && c.viewers[i].state == Stopped && c.viewers[i].open == {}
  {
    RunKeepsInv(Mounted(dlr), steps, c);
    assert Halted(c.viewers[i]) == c.viewers[i];
  }

  // ----- event names -----

  function Piece(c: char): string {
    if IsUpper(c) then ['_', ToLower(c)] else [c]
  }

  /** The snake case of text that is not at the start: every capital brings its underscore. */
  function Continued(s: string): string {
    if s == "" then "" else Piece(s[0]) + Continued(s[1..])
  }

  function Snake(s: string): string {
    if s != "" && IsUpper(s[0]) then [ToLower(s[0])] + Continued(s[1..]) else Continued(s)
  }

  /** What the loop of `pascalToSnake` has still to emit at position `i`. */
  function Remaining(s: string, i: nat): string
    requires i <= |s|
  {
    if i == 0 then Snake(s) else Continued(s[i..])
  }

  function Emitted(s: string, i: nat): string
    requires i < |s|
  {
    if i == 0 && IsUpper(s[i]) then [ToLower(s[i])] else Piece(s[i])
  }

  lemma RemainingStep(s: string, i: nat)
    requires i < |s|
    ensures Remaining(s, i) == Emitted(s, i) + Remaining(s, i + 1)
  {
    assert s[i..][1..] == s[i + 1..];
    if i == 0 { assert s[0..] == s; }
  }

  method PascalToSnake(s: string) returns (out: string)
    ensures out == Snake(s)
  {
    out := "";
    for i := 0 to |s|
      invariant out + Remaining(s, i) == Snake(s)
    {
      RemainingStep(s, i);
      ghost var before := out;
      assert (before + Emitted(s, i)) + Remaining(s, i + 1) == before + Remaining(s, i);
      if IsUpper(s[i]) {
        if i > 0 {
          out := out + "_";
        }
        out := out + [ToLower(s[i])];
      } else {
        out := out + [s[i]];
      }
      assert out == before + Emitted(s, i);
    }
    assert Remaining(s, |s|) == "";
  }

  function Capitalize(s: string): string {
    if s != "" && IsLower(s[0]) then [ToUpper(s[0])] + s[1..] else s
  }

  function FirstUnderscore(s: string): (i: nat)
    ensures i <= |s| && (forall k :: 0 <= k < i ==> s[k] != '_') && (i < |s| ==> s[i] == '_')
  {
    if s == "" || s[0] == '_' then 0 else 1 + FirstUnderscore(s[1..])
  }

  /** The type-level recursion `PascalCase` of types.d.ts. */
  function Pascal(s: string): string
    decreases |s|
  {
    var i := FirstUnderscore(s);
    if i == |s| then Capitalize(s) else Capitalize(s[..i]) + Pascal(s[i + 1..])
  }

  /** Segments start with a lowercase letter, and nothing is upper case. */
  predicate IsEventName(s: string) {
    && s != "" && IsLower(s[0])
    && (forall i :: 0 <= i < |s| ==> !IsUpper(s[i]))
    && (forall i :: 0 <= i < |s| && s[i] == '_' ==> i + 1 < |s| && IsLower(s[i + 1]))
  }

  lemma {:induction false} ContinuedConcat(s: string, t: string)
    ensures Continued(s + t) == Continued(s) + Continued(t)
    decreases |s|
  {
    if s == "" {
      assert s + t == t;
    } else {
      ContinuedConcat(s[1..], t);
      assert (s + t)[1..] == s[1..] + t;
      Associates(Piece(s[0]), Continued(s[1..]), Continued(t));
    }
  }

  lemma {:induction false} ContinuedKeepsLower(s: string)
    requires forall i :: 0 <= i < |s| ==> !IsUpper(s[i])
    ensures Continued(s) == s
    decreases |s|
  {
    if s != "" {
      ContinuedKeepsLower(s[1..]);
      assert s == [s[0]] + s[1..];
    }
  }

  lemma ContinuedCapitalized(s: string)
    requires s != "" && IsLower(s[0]) && forall i :: 0 <= i < |s| ==> !IsUpper(s[i])
    ensures Continued(Capitalize(s)) == "_" + s
  {
    ContinuedKeepsLower(s[1..]);
    assert Capitalize(s)[1..] == s[1..];
    assert s == [s[0]] + s[1..];
  }

  lemma RestIsEventName(s: string, i: nat)
    requires IsEventName(s) && i < |s| && s[i] == '_'
    ensures IsEventName(s[i + 1..])
  {
    var rest := s[i + 1..];
    forall k | 0 <= k < |rest| && rest[k] == '_' ensures k + 1 < |rest| && IsLower(rest[k + 1]) {
      assert s[i + 1 + k] == '_';
    }
  }

  lemma JoinsAtUnderscore(s: string, i: nat)
    requires i < |s| && s[i] == '_'
    ensures ("_" + s[..i]) + ("_" + s[i + 1..]) == "_" + s
  {
  }

  lemma {:induction false} ContinuedUndoesPascal(s: string)
    requires IsEventName(s)
    ensures Continued(Pascal(s)) == "_" + s && Pascal(s) != "" && IsUpper(Pascal(s)[0])
    decreases |s|
  {
    var i := FirstUnderscore(s);
    if i == |s| {
      ContinuedCapitalized(s);
    } else {
      var head, rest := s[..i], s[i + 1..];
      RestIsEventName(s, i);
      ContinuedUndoesPascal(rest);
      ContinuedCapitalized(head);
      ContinuedConcat(Capitalize(head), Pascal(rest));
      JoinsAtUnderscore(s, i);
    }
  }

  lemma SnakeOfCapital(p: string)
    requires p != "" && IsUpper(p[0])
    ensures Snake(p) == Continued(p)[1..]
  {
    assert Continued(p)[0] == '_';
  }

  /** The React wrapper recovers every event name from the `on...` property built from it. */
  lemma SnakeUndoesPascal(s: string)
    requires IsEventName(s)
    ensures Snake(Pascal(s)) == s
  {
    ContinuedUndoesPascal(s);
    SnakeOfCapital(Pascal(s));
    assert Continued(Pascal(s))[1..] == s;
  }
}
