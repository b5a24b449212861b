/** The walk over the session hooks (proxy/ProxyClientSession.cc). */
module SessionHooks {

  /** A plugin's continuation, with or without a mutex. */
  datatype Hook = Hook(plugin: nat, hasMutex: bool)

  datatype HookId = SsnStart | SsnClose | LastHook

  datatype Scope = Global | Local | NoScope

  datatype Event = EventNone | EventInterval | HttpContinue | HttpError

  /** Hooks by the event they are for. */
  datatype HookLists = HookLists(start: seq<Hook>, close: seq<Hook>) {
    function Get(id: HookId): seq<Hook> {
      match id
      case SsnStart => start
      case SsnClose => close
      case LastHook => []
    }

    predicate HasHooks() {
      start != [] || close != []
    }
  }

  /** What handle_api_return goes on to do. */
  datatype Outcome = Started | Closing | Freed

  class ProxyClientSession {
    const hooksOn: bool
    const globalHooks: HookLists
    const apiHooks: HookLists
    var apiHookid: HookId
    var apiScope: Scope
    var apiCurrent: seq<Hook>  // the hook api_current points to and those linked after it
    var scheduled: bool        // schedule_event
    var waiting: bool          // a hook that was invoked has not let the session go on yet
    ghost var invoked: seq<Hook>
    ghost var errored: bool    // a hook of the callout reported an error
    ghost var outcomes: seq<Outcome>

    constructor (hooksOn: bool, globalHooks: HookLists, apiHooks: HookLists)
      ensures this.hooksOn == hooksOn && this.globalHooks == globalHooks && this.apiHooks == apiHooks
      ensures Valid() && apiHookid == LastHook && outcomes == []
    {
      this.hooksOn, this.globalHooks, this.apiHooks := hooksOn, globalHooks, apiHooks;
      apiHookid, apiScope, apiCurrent, scheduled, waiting := LastHook, NoScope, [], false, false;
      invoked, errored, outcomes := [], false, [];
    }

    /** The hooks of the current callout, in order. */
    function All(): seq<Hook>
      reads this`apiHookid
    {
      globalHooks.Get(apiHookid) + apiHooks.Get(apiHookid)
    }

    /** The hooks the walk has still to invoke. */
    function Remaining(): seq<Hook>
      reads this`apiHookid, this`apiScope, this`apiCurrent
    {
      match apiScope
      case Global => apiCurrent + All()
      case Local => apiCurrent + apiHooks.Get(apiHookid)
      case NoScope => apiCurrent
    }

    /** The hooks invoked and those to come are the global list and then the session's. */
    ghost predicate Walking()
      reads this
    {
      && apiHookid != LastHook
      && (apiScope == Global ==> apiCurrent == [])
      && invoked + Remaining() == All()
    }

    /** Between events: a callout waits for one thing, a hook that was invoked, or a retry of one whose
        mutex was not to be had. */
    ghost predicate Valid()
      reads this
    {
      if apiHookid == LastHook then !scheduled && !waiting && apiCurrent == []
      else
        && Walking() && scheduled != waiting && !errored
        && (scheduled ==> apiCurrent != [] && apiCurrent[0].hasMutex)
        && (waiting ==> invoked != [])
    }

    /** What a callout that is over did. */
    function Result(id: HookId, event: Event): Outcome
      requires id != LastHook
    {
      if id == SsnClose then Freed else if event == HttpError then Closing else Started
    }

    method HandleApiReturn(event: Event)
      requires apiHookid != LastHook
      modifies this`apiHookid, this`apiScope, this`apiCurrent, this`scheduled, this`outcomes
      ensures apiHookid == LastHook && apiCurrent == []
      ensures scheduled == (old(scheduled) && old(apiHookid) == SsnStart)
      ensures outcomes == old(outcomes) + [Result(old(apiHookid), event)]
      // a session is freed after its close, and after its start closed on an error and started otherwise
      ensures outcomes[|outcomes| - 1] == Freed <==> old(apiHookid) == SsnClose
      ensures outcomes[|outcomes| - 1] == Closing <==> old(apiHookid) == SsnStart && event == HttpError
      ensures outcomes[|outcomes| - 1] == Started <==> old(apiHookid) == SsnStart && event != HttpError
    {
      var hookid := apiHookid;
      apiHookid, apiScope, apiCurrent := LastHook, NoScope, [];
      match hookid {
        case SsnStart =>
          outcomes := outcomes + [if event == HttpError then Closing else Started];
        case SsnClose =>
          scheduled := false;
          outcomes := outcomes + [Freed];
      }
    }

    /** The first part of state_api_callout: on to the next list when one is used up. */
    method NextList()
      requires Walking()
      modifies this`apiScope, this`apiCurrent
      ensures Walking() && Remaining() == old(Remaining())
      ensures apiCurrent == [] ==> Remaining() == []
    {
      if apiCurrent == [] && apiScope == Global {
        apiCurrent, apiScope := globalHooks.Get(apiHookid), Local;
      }
      if apiCurrent == [] && apiScope == Local {
        apiCurrent, apiScope := apiHooks.Get(apiHookid), NoScope;
      }
    }

    /** The callout that was on goes on, waiting for a hook or a retry, or it ended in one call of
        handle_api_return: with an error, or after all its hooks. */
    twostate predicate Progress()
      reads this
    {
      && Valid() && old(apiHookid) != LastHook && old(invoked) <= invoked <= old(All()) && (old(errored) ==> errored)
      && if apiHookid != LastHook then
           apiHookid == old(apiHookid) && outcomes == old(outcomes) && !errored && (waiting ==> |invoked| > |old(invoked)|)
         else
           && outcomes == old(outcomes) + [Result(old(apiHookid), if errored then HttpError else HttpContinue)]
           && (!errored ==> invoked == old(All()))
    }

    /** What becomes of the hook that is next: without its lock it is left for a retry, and otherwise invoked. */
    twostate predicate Next(new hook: Hook, new locked: bool)
      reads this
    {
      if hook.hasMutex && !locked then scheduled && !waiting && invoked == old(invoked) && Remaining() == old(Remaining())
      else old(invoked) + [hook] <= invoked
    }

    /** state_api_callout.  The lock of the next hook may be missed, and then a retry is scheduled. */
    method StateApiCallout(event: Event, locked: bool)
      requires Walking() && !scheduled && !waiting && !errored
      modifies this
      ensures Progress()
      ensures event != HttpError && old(Remaining()) != [] ==> Next(old(Remaining())[0], locked)
      ensures event != HttpError && old(Remaining()) == [] ==> apiHookid == LastHook && invoked == old(invoked) && !errored
      ensures event == HttpError ==> apiHookid == LastHook && invoked == old(invoked) && errored
      decreases |Remaining()|, 1
    {
      if event == HttpError {
        errored := true;
        HandleApiReturn(event);
        return;
      }
      NextList();
      if apiCurrent == [] {
        HandleApiReturn(event);
        return;
      }
      var hook := apiCurrent[0];
      if hook.hasMutex && !locked {
        if !scheduled {
          scheduled := true;
        }
        return;
      }
      Invoke(hook);
    }

    /** Takes the first hook that remains. */
    method Advance()
      requires Walking() && apiCurrent != []
      modifies this`apiCurrent, this`invoked
      ensures Walking() && |Remaining()| == |old(Remaining())| - 1
      ensures invoked == old(invoked) + [old(apiCurrent)[0]]
    {
      ghost var before := Remaining();
      var hook := apiCurrent[0];
      apiCurrent := apiCurrent[1..];
      invoked := invoked + [hook];
      assert before == [hook] + Remaining();
      assert invoked + Remaining() == old(invoked) + before;
    }

    /** Invokes the first hook that remains.  The plugin may let the session go on before it
        returns, which calls state_api_callout again, or later. */
    method Invoke(hook: Hook)
      requires Walking() && !scheduled && !waiting && !errored && apiCurrent != [] && hook == apiCurrent[0]
      modifies this
      ensures Progress() && old(invoked) + [hook] <= invoked
      decreases |Remaining()|, 0
    {
      Advance();
      var locked: bool := *;
      if {
        case true =>
          waiting := true;
        case true =>
          StateApiCallout(HttpContinue, locked);
        case true =>
          StateApiCallout(HttpError, locked);
      }
    }

    /** do_api_callout. */
    method DoApiCallout(id: HookId, locked: bool)
      requires Valid() && apiHookid == LastHook && id != LastHook
      modifies this
      ensures Valid() && invoked <= globalHooks.Get(id) + apiHooks.Get(id)
      ensures !(hooksOn && (globalHooks.HasHooks() || apiHooks.HasHooks())) ==> apiHookid == LastHook && invoked == [] && !errored
      ensures var all := globalHooks.Get(id) + apiHooks.Get(id);
        hooksOn && all != [] ==> if all[0].hasMutex && !locked then scheduled && invoked == [] else [all[0]] <= invoked
      ensures if apiHookid != LastHook then
          apiHookid == id && outcomes == old(outcomes) && !errored
        else
          && outcomes == old(outcomes) + [Result(id, if errored then HttpError else HttpContinue)]
          && (hooksOn && !errored ==> invoked == globalHooks.Get(id) + apiHooks.Get(id))
    {
      apiHookid, apiScope, apiCurrent := id, Global, [];
      invoked, errored := [], false;
      if hooksOn && (globalHooks.HasHooks() || apiHooks.HasHooks()) {
        assert Remaining() == All();
        StateApiCallout(EventNone, locked);
      } else {
        HandleApiReturn(HttpContinue);
      }
    }

    /** The retry after a missed lock. */
    method Retry(locked: bool)
      requires Valid() && scheduled
      modifies this
      ensures Progress() && Next(old(apiCurrent)[0], locked)
    {
      scheduled := false;
      assert apiCurrent[0] == Remaining()[0];
      StateApiCallout(EventInterval, locked);
    }

    /** A plugin lets the session go on, after it returned from its hook. */
    method Reenable(error: bool, locked: bool)
      requires Valid() && waiting
      modifies this
      ensures Progress()
      ensures error ==> apiHookid == LastHook && invoked == old(invoked) && errored
      ensures !error && old(Remaining()) != [] ==> Next(old(Remaining())[0], locked)
      ensures !error && old(Remaining()) == [] ==> apiHookid == LastHook && invoked == old(invoked) && !errored
    {
      waiting := false;
      StateApiCallout(if error then HttpError else HttpContinue, locked);
    }

    /** A whole callout, with any number of missed locks and any behaviour of the plugins, for as
        long as `events` events happen.  The hooks invoked are a prefix of the global list followed
        by the session's; the callout ends in one call of handle_api_return, and without an error
        only after all of them; until then it waits for a hook or a retry. */
    method Callout(id: HookId, events: nat) returns (over: bool)
      requires Valid() && apiHookid == LastHook && id != LastHook
      modifies this
      ensures Valid() && invoked <= globalHooks.Get(id) + apiHooks.Get(id)
      ensures invoked <= if id == SsnStart then globalHooks.start + apiHooks.start else globalHooks.close + apiHooks.close
      ensures over ==>
        && outcomes == old(outcomes) + [if id == SsnClose then Freed else if errored then Closing else Started]
        && (hooksOn && !errored ==> invoked == globalHooks.Get(id) + apiHooks.Get(id))
        && (!hooksOn ==> invoked == [])
      ensures !over ==> outcomes == old(outcomes) && apiHookid == id && scheduled != waiting
    {
      var locked: bool := *;
      DoApiCallout(id, locked);
      var n := events;
      while apiHookid != LastHook && n > 0
        invariant Valid() && invoked <= globalHooks.Get(id) + apiHooks.Get(id)
        invariant if apiHookid != LastHook then
            apiHookid == id && outcomes == old(outcomes) && !errored && hooksOn
          else
            && outcomes == old(outcomes) + [Result(id, if errored then HttpError else HttpContinue)]
            && (hooksOn && !errored ==> invoked == globalHooks.Get(id) + apiHooks.Get(id))
            && (!hooksOn ==> invoked == [])
      {
        locked := *;
        if scheduled {
          Retry(locked);
        } else {
          var error: bool := *;
          Reenable(error, locked);
        }
        n := n - 1;
      }
      over := apiHookid == LastHook;
    }

    /** A whole callout in which every retry gets its lock and every plugin that is waited for goes on: it
        ends, after no more events than there are hooks. */
    method Unhindered(id: HookId) returns (events: nat)
      requires Valid() && apiHookid == LastHook && id != LastHook
      modifies this
      ensures Valid() && apiHookid == LastHook && events <= |globalHooks.Get(id) + apiHooks.Get(id)|
      ensures outcomes == old(outcomes) + [if id == SsnClose then Freed else if errored then Closing else Started]
      ensures hooksOn && !errored ==> invoked == globalHooks.Get(id) + apiHooks.Get(id)
    {
      ghost var all := globalHooks.Get(id) + apiHooks.Get(id);
      DoApiCallout(id, true);
      events := 0;
      while apiHookid != LastHook
        invariant Valid() && invoked <= all && events <= |all|
        invariant if apiHookid != LastHook then
            apiHookid == id && outcomes == old(outcomes) && !errored && events < |invoked|
          else
            && outcomes == old(outcomes) + [Result(id, if errored then HttpError else HttpContinue)]
            && (hooksOn && !errored ==> invoked == all)
        decreases apiHookid != LastHook, |all| - |invoked|
      {
        if scheduled {
          Retry(true);
        } else {
          Reenable(false, true);
        }
        events := events + 1;
      }
    }
  }
}
