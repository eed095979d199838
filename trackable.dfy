/** The notification state machine of a Trackable component: when it posts
    its spawn message and when it later posts the matching removal message,
    driven by the engine's lifecycle hooks and two flags. */
module Trackables {
  import opened Options

  /** When a Trackable announces itself. */
  datatype NotifyWhen = Start | Enable

  /** The messages a Trackable posts on the global message pump. */
  datatype Message = TrackableSpawned | TrackableRemoved

  /** Posted: a spawn message went out and has not been withdrawn by a
      disable. PostedOnEnable: OnEnable has run in Enable mode at least once. */
  datatype Flags = Flags(posted: bool, postedOnEnable: bool)

  /** A lifecycle hook; `authority` is what ValidateAuthority answers when the
      hook gets to Init. */
  datatype Hook = StartHook(authority: bool) | EnableHook(authority: bool) | DisableHook | DestroyHook

  /** The flags after a hook and the messages it posted, in order. */
  datatype Step = Step(flags: Flags, posts: seq<Message>)

  /** Init: with authority, post the spawn message and remember it. */
  function InitStep(f: Flags, authority: bool): (r: Step)
    ensures r.posts == (if authority then [TrackableSpawned] else [])
    ensures r.flags.posted == (f.posted || authority)
    ensures r.flags.postedOnEnable == f.postedOnEnable
  {
    if authority then Step(f.(posted := true), [TrackableSpawned]) else Step(f, [])
  }

  /** One lifecycle hook of a Trackable whose OccursAt is `mode`. */
  function OnHook(mode: NotifyWhen, f: Flags, hook: Hook): (r: Step)
    // a hook posts at most one message
    ensures |r.posts| <= 1
    // a removal is only ever posted while a spawn is outstanding
    ensures TrackableRemoved in r.posts ==> f.posted && (hook.DisableHook? || hook.DestroyHook?)
    // a spawn is only posted by Init, which then records it
    ensures TrackableSpawned in r.posts ==>
              r.flags.posted && (hook.StartHook? || hook.EnableHook?) && hook.authority
    // PostedOnEnable is never reset, and only Enable mode sets it
    ensures f.postedOnEnable ==> r.flags.postedOnEnable
    ensures mode == NotifyWhen.Start ==> r.flags.postedOnEnable == f.postedOnEnable
    // a disable always withdraws Posted, and posts a removal iff both flags were set
    ensures hook.DisableHook? ==>
              !r.flags.posted && (r.posts == [TrackableRemoved] <==> f.posted && f.postedOnEnable)
    // a destroy posts a removal iff Posted was set
    ensures hook.DestroyHook? ==> r.flags == f && (r.posts == [TrackableRemoved] <==> f.posted)
  {
    match hook
    case StartHook(authority) =>
      if mode == NotifyWhen.Start then InitStep(f, authority) else Step(f, [])
    case EnableHook(authority) =>
      if mode == NotifyWhen.Enable then InitStep(f.(postedOnEnable := true), authority) else Step(f, [])
    case DisableHook =>
      Step(f.(posted := false), if f.posted && f.postedOnEnable then [TrackableRemoved] else [])
    case DestroyHook =>
      Step(f, if f.posted then [TrackableRemoved] else [])
  }

  /** A sequence of hooks, run in order; the posts are concatenated. */
  function Run(mode: NotifyWhen, f: Flags, hooks: seq<Hook>): Step
    decreases |hooks|
  {
    if hooks == [] then Step(f, [])
    else
      var first := OnHook(mode, f, hooks[0]);
      var rest := Run(mode, first.flags, hooks[1..]);
      Step(rest.flags, first.posts + rest.posts)
  }

  /** Every removal message in the log directly follows a spawn message, so
      no spawn is followed by two removals. */
  ghost predicate RemovalsPaired(log: seq<Message>) {
    forall i :: 0 <= i < |log| && log[i] == TrackableRemoved ==> 0 < i && log[i - 1] == TrackableSpawned
  }

  /** The engine calls OnDestroy last: no hook follows it. */
  predicate DestroyLast(hooks: seq<Hook>) {
    forall i :: 0 <= i < |hooks| - 1 ==> !hooks[i].DestroyHook?
  }

  /** PostedOnEnable is never reset by any sequence of hooks. */
  lemma {:induction false} PostedOnEnableStays(mode: NotifyWhen, f: Flags, hooks: seq<Hook>)
    requires f.postedOnEnable
    ensures Run(mode, f, hooks).flags.postedOnEnable
    decreases |hooks|
  {
    if hooks != [] {
      PostedOnEnableStays(mode, OnHook(mode, f, hooks[0]).flags, hooks[1..]);
    }
  }

  /** In Start mode PostedOnEnable never changes, so a fresh Trackable never
      has it. */
  lemma {:induction false} StartModeKeepsPostedOnEnable(f: Flags, hooks: seq<Hook>)
    ensures Run(NotifyWhen.Start, f, hooks).flags.postedOnEnable == f.postedOnEnable
    decreases |hooks|
  {
    if hooks != [] {
      StartModeKeepsPostedOnEnable(OnHook(NotifyWhen.Start, f, hooks[0]).flags, hooks[1..]);
    }
  }

  /** At most one removal follows each successful Init: starting from a log in
      which removals are paired and where Posted implies that the last message
      was a spawn, any lifecycle that ends with (at most) one OnDestroy keeps
      removals paired. */
  lemma {:induction false} RemovalFollowsSpawn(mode: NotifyWhen, f: Flags, log: seq<Message>, hooks: seq<Hook>)
    requires RemovalsPaired(log)
    requires f.posted ==> log != [] && log[|log| - 1] == TrackableSpawned
    requires DestroyLast(hooks)
    ensures RemovalsPaired(log + Run(mode, f, hooks).posts)
    decreases |hooks|
  {
    if hooks == [] {
      assert log + Run(mode, f, hooks).posts == log;
    } else {
      var first := OnHook(mode, f, hooks[0]);
      var log' := log + first.posts;
      assert RemovalsPaired(log') by {
        forall i | 0 <= i < |log'| && log'[i] == TrackableRemoved
          ensures 0 < i && log'[i - 1] == TrackableSpawned
        {
          if i >= |log| {
            assert first.posts == [TrackableRemoved];
            assert log'[i - 1] == log[|log| - 1];
          }
        }
      }
      var rest := Run(mode, first.flags, hooks[1..]);
      if hooks[0].DestroyHook? {
        assert hooks[1..] == [];
      } else {
        assert first.flags.posted ==> log' != [] && log'[|log'| - 1] == TrackableSpawned by {
          if first.flags.posted && TrackableSpawned !in first.posts {
            assert first.posts == [];
            assert log' == log;
          }
        }
        assert DestroyLast(hooks[1..]) by {
          forall i | 0 <= i < |hooks[1..]| - 1 ensures !hooks[1..][i].DestroyHook? {
            assert hooks[1..][i] == hooks[i + 1];
          }
        }
        RemovalFollowsSpawn(mode, first.flags, log', hooks[1..]);
      }
      assert log + Run(mode, f, hooks).posts == log' + rest.posts;
    }
  }

  /** A fresh Trackable's whole lifecycle posts paired removals only. */
  lemma FreshLifecycleRemovalsPaired(mode: NotifyWhen, hooks: seq<Hook>)
    requires DestroyLast(hooks)
    ensures RemovalsPaired(Run(mode, Flags(false, false), hooks).posts)
  {
    RemovalFollowsSpawn(mode, Flags(false, false), [], hooks);
    assert [] + Run(mode, Flags(false, false), hooks).posts == Run(mode, Flags(false, false), hooks).posts;
  }

  /** In Start mode, once Posted is clear, nothing but another Start hook can
      bring a removal message back. */
  lemma {:induction false} StartModeSilentWithoutStart(f: Flags, hooks: seq<Hook>)
    requires !f.posted && !f.postedOnEnable
    requires forall i :: 0 <= i < |hooks| ==> !hooks[i].StartHook?
    ensures TrackableRemoved !in Run(NotifyWhen.Start, f, hooks).posts
    ensures !Run(NotifyWhen.Start, f, hooks).flags.posted
    decreases |hooks|
  {
    if hooks != [] {
      var first := OnHook(NotifyWhen.Start, f, hooks[0]);
      assert first.posts == [] && first.flags == f;
      StartModeSilentWithoutStart(f, hooks[1..]);
    }
  }

  /** In Start mode a disable withdraws the spawn without posting a removal, so
      a Trackable disabled before it is destroyed never posts a removal for
      that spawn. */
  lemma StartModeDisableLosesRemoval(f: Flags, hooks: seq<Hook>)
    requires !f.postedOnEnable
    requires forall i :: 0 <= i < |hooks| ==> !hooks[i].StartHook?
    ensures TrackableRemoved !in Run(NotifyWhen.Start, f, [DisableHook] + hooks).posts
  {
    var first := OnHook(NotifyWhen.Start, f, DisableHook);
    assert ([DisableHook] + hooks)[1..] == hooks;
    StartModeSilentWithoutStart(first.flags, hooks);
  }

  /** A Trackable component. OccursAt is fixed for the component's life;
      Posted and PostedOnEnable change with the lifecycle hooks; Log records
      the messages it posted. */
  class Trackable {
    var IdValue: Option<string>
    const OccursAt: NotifyWhen
    var PostedOnEnable: bool
    var Posted: bool
    ghost var Log: seq<Message>

    ghost function State(): Flags
      reads this
    {
      Flags(Posted, PostedOnEnable)
    }

    constructor (id: Option<string>, occursAt: NotifyWhen)
      ensures IdValue == id && OccursAt == occursAt
      ensures !Posted && !PostedOnEnable && Log == []
    {
      IdValue := id;
      OccursAt := occursAt;
      Posted := false;
      PostedOnEnable := false;
      Log := [];
    }

    method Init(authority: bool)
      modifies this
      ensures IdValue == old(IdValue) && PostedOnEnable == old(PostedOnEnable)
      ensures Posted == (old(Posted) || authority)
      ensures Log == old(Log) + (if authority then [TrackableSpawned] else [])
    {
      if authority {
        Log := Log + [TrackableSpawned];
        Posted := true;
      }
    }

    method Start(authority: bool)
      modifies this
      ensures IdValue == old(IdValue)
      ensures State() == OnHook(OccursAt, old(State()), StartHook(authority)).flags
      ensures Log == old(Log) + OnHook(OccursAt, old(State()), StartHook(authority)).posts
      ensures OccursAt == NotifyWhen.Enable ==> State() == old(State()) && Log == old(Log)
    {
      if OccursAt == NotifyWhen.Start {
        Init(authority);
      }
    }

    method OnDestroy()
      modifies this
      ensures IdValue == old(IdValue) && State() == old(State())
      ensures Log == old(Log) + OnHook(OccursAt, old(State()), DestroyHook).posts
      ensures Log == old(Log) + (if old(Posted) then [TrackableRemoved] else [])
    {
      if Posted {
        Log := Log + [TrackableRemoved];
      }
    }

    method OnEnable(authority: bool)
      modifies this
      ensures IdValue == if old(IdValue).None? then Some("") else old(IdValue)
      ensures State() == OnHook(OccursAt, old(State()), EnableHook(authority)).flags
      ensures Log == old(Log) + OnHook(OccursAt, old(State()), EnableHook(authority)).posts
      ensures OccursAt == NotifyWhen.Enable ==> PostedOnEnable
      ensures OccursAt == NotifyWhen.Start ==> State() == old(State()) && Log == old(Log)
    {
      if IdValue.None? {
        IdValue := Some("");
      }
      if OccursAt == NotifyWhen.Enable {
        PostedOnEnable := true;
        Init(authority);
      }
    }

    method OnDisable()
      modifies this
      ensures IdValue == old(IdValue) && PostedOnEnable == old(PostedOnEnable) && !Posted
      ensures State() == OnHook(OccursAt, old(State()), DisableHook).flags
      ensures Log == old(Log) + OnHook(OccursAt, old(State()), DisableHook).posts
      ensures Log == old(Log) + (if old(Posted && PostedOnEnable) then [TrackableRemoved] else [])
    {
      if Posted && PostedOnEnable {
        Log := Log + [TrackableRemoved];
      }
      Posted := false;
    }
  }
}
