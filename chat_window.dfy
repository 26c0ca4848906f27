/** The chat window's mutable state and the handlers that change it step by step:
    the session poll registry (one live interval per session), the pending-fetch
    guard, the retries scheduled after a "not ready" result, and the submission,
    regeneration, cancellation and conversation-list handlers. Each asynchronous
    handler is split at its request: one method runs up to the request, another
    takes the settled answer as an input. */
module ChatWindow {
  import opened Base
  import opened Text
  import opened Model
  import Store
  import Display
  import opened Workflow
  import opened Responses

  /** A browser timer handle; handles are positive and never reused. */
  type TimerId = nat

  /** A pending `setTimeout`: fetch the result of `sessionId` for `convId` again. */
  datatype Retry = Retry(sessionId: SessionId, convId: Id, delayMs: int)

  /** The configuration the window starts with. */
  const DefaultConfig := Config("paper", "academic", "slides", "medium", "medium", true)

  /** The registry names each session's live interval, every live interval is
      registered under the session it polls, and handles not yet issued are not live. */
  ghost predicate RegistryConsistent(polls: map<SessionId, TimerId>, timers: map<TimerId, SessionId>, next: TimerId) {
    && (forall s :: s in polls ==> polls[s] in timers && timers[polls[s]] == s)
    && (forall t :: t in timers ==> timers[t] in polls && polls[timers[t]] == t)
    && (forall t :: t in timers ==> t < next)
  }

  /** No session is polled by two live intervals. */
  lemma OneIntervalPerSession(polls: map<SessionId, TimerId>, timers: map<TimerId, SessionId>, next: TimerId,
                              t1: TimerId, t2: TimerId)
    requires RegistryConsistent(polls, timers, next)
    requires t1 in timers && t2 in timers && timers[t1] == timers[t2]
    ensures t1 == t2
  {
    assert polls[timers[t1]] == t1;
  }

  /** The live intervals once the one registered for `s`, if any, is cleared. */
  function Cleared(polls: map<SessionId, TimerId>, timers: map<TimerId, SessionId>, s: SessionId): map<TimerId, SessionId> {
    if s in polls then timers - {polls[s]} else timers
  }

  /** `if (!convId)`: keep the selection, else reuse an empty conversation or create one. */
  function SendTarget(s: Store.Selection, newId: Id, cfg: Config, now: int): (r: Store.Selection)
    ensures r.current.Some?
    ensures s.current.Some? ==> r == s
    ensures s.current.None? ==> r == Store.NewConversation(s, newId, cfg, now)
    ensures s.current.None? ==> exists k :: 0 <= k < |r.conversations| && r.conversations[k].id == r.current.value
                                            && IsEmpty(r.conversations[k])
  {
    if s.current.Some? then s
    else
      Store.NewConversationSelectsEmpty(s, newId, cfg, now);
      Store.NewConversation(s, newId, cfg, now)
  }

  /** The conversation list and selection after a submission's store updates. A
      conversation the submission creates is titled by the first file it carries. */
  function SendState(s: Store.Selection, newId: Id, text: string, files: seq<LocalFile>, cfg: Config,
                     msgId: Id, now: int): (r: Store.Selection)
    ensures var target := SendTarget(s, newId, cfg, now);
      && r.current == target.current && r.current.Some?
      && r.conversations == Submitted(target.conversations, target.current.value, text, files, cfg, msgId, now)
      && |r.conversations| == |target.conversations|
    ensures s.current.None? && Store.FindEmptyConversation(s.conversations).None? && !HasId(s.conversations, newId)
            && files != [] ==>
              r.conversations[0].id == newId && r.conversations[0].title == Display.StripExtension(files[0].name)
  {
    var target := SendTarget(s, newId, cfg, now);
    var r := Store.Selection(Submitted(target.conversations, target.current.value, text, files, cfg, msgId, now),
                             target.current);
    if s.current.None? && Store.FindEmptyConversation(s.conversations).None? && !HasId(s.conversations, newId)
       && files != []
    then
      FreshConversationTitledByFile(s.conversations, newId, text, files, cfg, msgId, now);
      r
    else r
  }

  class Window {
    var conversations: seq<Conversation>
    var current: Option<Id>
    var config: Config
    var workflow: Option<Workflow>
    var isLoading: bool
    var hasAbortController: bool
    /** `pollIntervalsRef`: the interval registered for each session. */
    var polls: map<SessionId, TimerId>
    /** The live intervals and the session each one polls. */
    var timers: map<TimerId, SessionId>
    var nextTimer: TimerId
    /** `fetchingResultsRef`: the sessions whose result fetch is underway. */
    var fetching: set<SessionId>
    /** Scheduled retries, oldest first. */
    var retries: seq<Retry>
    /** The persisted copy of the conversation list. */
    var storage: Option<seq<Conversation>>

    ghost predicate Valid()
      reads this
    {
      RegistryConsistent(polls, timers, nextTimer)
    }

    /** Mount: load the persisted list and select its first conversation. */
    constructor(stored: Option<seq<Conversation>>)
      ensures Valid()
      ensures conversations == stored.GetOr([])
      ensures current == if conversations != [] then Some(conversations[0].id) else None
      ensures config == DefaultConfig && workflow == None && !isLoading && !hasAbortController
      ensures polls == map[] && timers == map[] && fetching == {} && retries == [] && storage == stored
    {
      conversations := stored.GetOr([]);
      current := if stored.GetOr([]) != [] then Some(stored.GetOr([])[0].id) else None;
      config := DefaultConfig;
      workflow := None;
      isLoading := false;
      hasAbortController := false;
      polls := map[];
      timers := map[];
      nextTimer := 1;
      fetching := {};
      retries := [];
      storage := stored;
    }

    /** The configuration setters. */
    method SetConfig(cfg: Config)
      modifies this`config
      ensures config == cfg
    {
      config := cfg;
    }

    /** The save effect: a non-empty list is stored without preview handles. */
    method Persist()
      modifies this`storage
      ensures conversations != [] ==> storage == Store.PersistedSnapshot(conversations)
      ensures conversations == [] ==> storage == old(storage)
    {
      if conversations != [] {
        storage := Store.PersistedSnapshot(conversations);
      }
    }

    // ------------------------------------------------------------ poll registry

    /** Clear the session's previous interval, start a fresh one and register it. */
    method StartPolling(s: SessionId) returns (t: TimerId)
      requires Valid()
      modifies this`polls, this`timers, this`nextTimer
      ensures Valid()
      ensures t == old(nextTimer) && t !in old(timers) && nextTimer == t + 1
      ensures polls == old(polls)[s := t]
      ensures timers == Cleared(old(polls), old(timers), s)[t := s]
    {
      if s in polls {
        timers := timers - {polls[s]};
      }
      t := nextTimer;
      nextTimer := nextTimer + 1;
      timers := timers[t := s];
      polls := polls[s := t];
    }

    /** Clear the session's interval, if any, and drop it from the registry. */
    method StopPolling(s: SessionId)
      requires Valid()
      modifies this`polls, this`timers
      ensures Valid()
      ensures polls == old(polls) - {s} && s !in polls
      ensures timers == Cleared(old(polls), old(timers), s)
      ensures forall t :: t in timers ==> timers[t] != s
    {
      if s in polls {
        timers := timers - {polls[s]};
        polls := polls - {s};
      }
    }

    /** Unmount: clear every interval. */
    method Teardown()
      modifies this`polls, this`timers
      ensures Valid()
      ensures polls == map[] && timers == map[]
    {
      polls := map[];
      timers := map[];
    }

    // ------------------------------------------------------------ result fetch

    /** The guard at the start of `fetchFinalResult`: a session already being fetched is
        skipped; otherwise it is marked. */
    method BeginFetch(s: SessionId) returns (acquired: bool)
      modifies this`fetching
      ensures acquired <==> s !in old(fetching)
      ensures fetching == old(fetching) + {s}
    {
      acquired := s !in fetching;
      fetching := fetching + {s};
    }

    /** The settled result request of an acquired fetch. Every outcome releases the
        guard; a delivered result is recorded, "not ready" schedules one retry, and
        anything else reports the failure. */
    method CompleteFetch(s: SessionId, convId: Id, resp: ResultResponse, msgId: Id, outId: Id, now: int)
      requires s in fetching
      modifies this`conversations, this`fetching, this`workflow, this`isLoading, this`retries
      ensures fetching == old(fetching) - {s} && s !in fetching
      ensures ClassifyResult(resp).Delivered? ==>
                && conversations == ApplyResult(old(conversations), convId, ClassifyResult(resp).payload, config, msgId, outId, now)
                && workflow == None && !isLoading && retries == old(retries)
      ensures ClassifyResult(resp) == NotReady ==>
                && retries == old(retries) + [Retry(s, convId, RetryDelayMs)]
                && conversations == old(conversations) && workflow == old(workflow) && isLoading == old(isLoading)
      ensures ClassifyResult(resp) == Unavailable ==>
                && conversations == Store.AddMessage(old(conversations), convId, NoticeMessage(msgId, FetchFailedText, true, now), now)
                && workflow == None && !isLoading && retries == old(retries)
    {
      fetching := fetching - {s};
      match ClassifyResult(resp)
      case Delivered(p) =>
        conversations := ApplyResult(conversations, convId, p, config, msgId, outId, now);
        workflow := None;
        isLoading := false;
      case NotReady =>
        retries := retries + [Retry(s, convId, RetryDelayMs)];
      case Unavailable =>
        conversations := Store.AddMessage(conversations, convId, NoticeMessage(msgId, FetchFailedText, true, now), now);
        workflow := None;
        isLoading := false;
    }

    /** The oldest scheduled retry fires and calls `fetchFinalResult` again. */
    method FireRetry() returns (fired: Option<Retry>, acquired: bool)
      modifies this`retries, this`fetching
      ensures old(retries) == [] ==> fired == None && !acquired && retries == [] && fetching == old(fetching)
      ensures old(retries) != [] ==>
                && fired == Some(old(retries)[0]) && retries == old(retries)[1..]
                && (acquired <==> old(retries)[0].sessionId !in old(fetching))
                && fetching == old(fetching) + {old(retries)[0].sessionId}
    {
      if retries == [] {
        fired := None;
        acquired := false;
      } else {
        var r := retries[0];
        retries := retries[1..];
        fired := Some(r);
        acquired := BeginFetch(r.sessionId);
      }
    }

    // ------------------------------------------------------------ status poll

    /** One interval firing for session `s` of conversation `convId`. A report updates
        the workflow; a terminal report first stops the session's interval, then fetches
        the result (when no fetch is underway) or reports the failure. */
    method PollTick(s: SessionId, convId: Id, resp: StatusResponse, msgId: Id, now: int) returns (action: Option<TickAction>)
      requires Valid()
      modifies this`workflow, this`polls, this`timers, this`fetching, this`conversations, this`isLoading
      ensures Valid()
      ensures StatusReport(resp).None? ==>
                && action == None && workflow == old(workflow) && polls == old(polls) && timers == old(timers)
                && fetching == old(fetching) && conversations == old(conversations) && isLoading == old(isLoading)
      ensures StatusReport(resp).Some? ==> action == Some(Decide(Reported(StatusReport(resp).value), s in old(fetching)))
      ensures action == Some(KeepPolling) ==>
                && workflow == Tick(old(workflow), StatusReport(resp).value)
                && polls == old(polls) && timers == old(timers) && fetching == old(fetching)
                && conversations == old(conversations) && isLoading == old(isLoading)
      ensures action.Some? && action != Some(KeepPolling) ==>
                polls == old(polls) - {s} && timers == Cleared(old(polls), old(timers), s)
      ensures action == Some(FetchResult) ==>
                && s !in old(fetching) && fetching == old(fetching) + {s}
                && workflow == Tick(old(workflow), StatusReport(resp).value)
                && conversations == old(conversations) && isLoading == old(isLoading)
      ensures action == Some(StopOnly) ==>
                && s in old(fetching) && fetching == old(fetching)
                && workflow == Tick(old(workflow), StatusReport(resp).value)
                && conversations == old(conversations) && isLoading == old(isLoading)
      ensures action == Some(ReportFailure) ==>
                && fetching == old(fetching) && workflow == None && !isLoading
                && conversations == Store.AddMessage(old(conversations), convId,
                     NoticeMessage(msgId, FailureText(StatusReport(resp).value.error), true, now), now)
    {
      match StatusReport(resp)
      case None =>
        action := None;
      case Some(p) =>
        workflow := Tick(workflow, p);
        var a := Decide(Reported(p), s in fetching);
        action := Some(a);
        if a != KeepPolling {
          StopPolling(s);
          if a == FetchResult {
            var acquired := BeginFetch(s);
          } else if a == ReportFailure {
            conversations := Store.AddMessage(conversations, convId, NoticeMessage(msgId, FailureText(p.error), true, now), now);
            workflow := None;
            isLoading := false;
          }
        }
    }

    // ------------------------------------------------------------ submission

    /** `handleSendMessage` up to the request: refuse blank input, settle the target
        conversation, record the message, files, title and configuration, and show the
        initial workflow. The blank test `!text.trim()` is stated as `AllWhitespace`,
        which `Text.TrimBlank` shows to be the same. */
    method SendMessage(text: string, files: seq<LocalFile>, newConvId: Id, msgId: Id, now: int) returns (target: Option<Id>)
      modifies this`conversations, this`current, this`isLoading, this`workflow, this`hasAbortController
      ensures AllWhitespace(text) && files == [] ==>
                && target == None && conversations == old(conversations) && current == old(current)
                && isLoading == old(isLoading) && workflow == old(workflow)
                && hasAbortController == old(hasAbortController)
      ensures !(AllWhitespace(text) && files == []) ==>
                var r := SendState(Store.Selection(old(conversations), old(current)), newConvId, text, files, config, msgId, now);
                && target == r.current && current == r.current && conversations == r.conversations
                && isLoading && hasAbortController
                && workflow == Some(InitialWorkflow(config.output, config.style, config.content, r.current.value))
    {
      if AllWhitespace(text) && files == [] {
        target := None;
        return;
      }
      var r := SendState(Store.Selection(conversations, current), newConvId, text, files, config, msgId, now);
      current := r.current;
      conversations := r.conversations;
      isLoading := true;
      workflow := Some(InitialWorkflow(config.output, config.style, config.content, r.current.value));
      hasAbortController := true;
      target := r.current;
    }

    /** The settled submission for conversation `convId`: an accepted one starts polling
        its session and writes the stored files' URLs; a cancelled or failed one clears
        the workflow and says so. */
    method SubmitResponded(convId: Id, resp: SubmitResponse, msgId: Id, now: int)
      requires Valid()
      modifies this`polls, this`timers, this`nextTimer, this`conversations, this`workflow, this`isLoading,
               this`hasAbortController
      ensures Valid()
      ensures ClassifySubmit(resp).Accepted? ==>
                var o := ClassifySubmit(resp);
                && conversations == Store.PopulateUploaded(old(conversations), convId, o.uploaded, o.sessionId)
                && workflow == old(workflow) && isLoading == old(isLoading)
                && hasAbortController == old(hasAbortController)
                && (Present(o.sessionId) ==>
                      && polls == old(polls)[o.sessionId.value := old(nextTimer)]
                      && timers == Cleared(old(polls), old(timers), o.sessionId.value)[old(nextTimer) := o.sessionId.value])
                && (!Present(o.sessionId) ==> polls == old(polls) && timers == old(timers))
      ensures !ClassifySubmit(resp).Accepted? ==>
                && polls == old(polls) && timers == old(timers)
                && workflow == None && !isLoading && !hasAbortController
      ensures ClassifySubmit(resp) == Cancelled ==>
                conversations == Store.AddMessage(old(conversations), convId, NoticeMessage(msgId, CancelledText, false, now), now)
      ensures ClassifySubmit(resp).Rejected? ==>
                conversations == Store.AddMessage(old(conversations), convId,
                  NoticeMessage(msgId, SendErrorText(ClassifySubmit(resp).message), true, now), now)
    {
      match ClassifySubmit(resp)
      case Accepted(sessionId, uploaded) =>
        if Present(sessionId) {
          var t := StartPolling(sessionId.value);
        }
        conversations := Store.PopulateUploaded(conversations, convId, uploaded, sessionId);
      case Cancelled =>
        workflow := None;
        isLoading := false;
        conversations := Store.AddMessage(conversations, convId, NoticeMessage(msgId, CancelledText, false, now), now);
        hasAbortController := false;
      case Rejected(message) =>
        workflow := None;
        isLoading := false;
        conversations := Store.AddMessage(conversations, convId, NoticeMessage(msgId, SendErrorText(message), true, now), now);
        hasAbortController := false;
    }

    /** `handleRegenerate` up to the request: the current conversation must have files
        whose first one carries a session; then the request is recorded and the initial
        workflow shown. */
    method Regenerate(msgId: Id, now: int) returns (start: RegenerateStart)
      modifies this`conversations, this`isLoading, this`workflow, this`hasAbortController
      ensures start == RegenerateCheck(old(conversations), current)
      ensures !start.Started? ==>
                && conversations == old(conversations) && isLoading == old(isLoading)
                && workflow == old(workflow) && hasAbortController == old(hasAbortController)
      ensures start.Started? ==>
                && conversations == Store.AddMessage(old(conversations), start.convId, RegenerateMessage(msgId, config, now), now)
                && isLoading && hasAbortController
                && workflow == Some(InitialWorkflow(config.output, config.style, config.content, start.convId))
    {
      start := RegenerateCheck(conversations, current);
      if start.Started? {
        conversations := Store.AddMessage(conversations, start.convId, RegenerateMessage(msgId, config, now), now);
        isLoading := true;
        workflow := Some(InitialWorkflow(config.output, config.style, config.content, start.convId));
        hasAbortController := true;
      }
    }

    /** The settled regeneration request for `sessionId`: accepted starts polling it;
        otherwise the workflow is cleared and the failure or cancellation reported. */
    method RegenerateResponded(sessionId: SessionId, convId: Id, resp: SubmitResponse, msgId: Id, now: int)
      requires Valid()
      modifies this`polls, this`timers, this`nextTimer, this`conversations, this`workflow, this`isLoading,
               this`hasAbortController
      ensures Valid()
      ensures ClassifySubmit(resp).Accepted? ==>
                && polls == old(polls)[sessionId := old(nextTimer)]
                && timers == Cleared(old(polls), old(timers), sessionId)[old(nextTimer) := sessionId]
                && conversations == old(conversations) && workflow == old(workflow) && isLoading == old(isLoading)
                && hasAbortController == old(hasAbortController)
      ensures !ClassifySubmit(resp).Accepted? ==>
                && polls == old(polls) && timers == old(timers)
                && workflow == None && !isLoading && !hasAbortController
      ensures ClassifySubmit(resp) == Cancelled ==>
                conversations == Store.AddMessage(old(conversations), convId, NoticeMessage(msgId, CancelledText, false, now), now)
      ensures ClassifySubmit(resp).Rejected? ==>
                conversations == Store.AddMessage(old(conversations), convId, NoticeMessage(msgId, RegenerateErrorText, true, now), now)
    {
      match ClassifySubmit(resp)
      case Accepted(_, _) =>
        var t := StartPolling(sessionId);
      case Cancelled =>
        workflow := None;
        isLoading := false;
        conversations := Store.AddMessage(conversations, convId, NoticeMessage(msgId, CancelledText, false, now), now);
        hasAbortController := false;
      case Rejected(_) =>
        workflow := None;
        isLoading := false;
        conversations := Store.AddMessage(conversations, convId, NoticeMessage(msgId, RegenerateErrorText, true, now), now);
        hasAbortController := false;
    }

    /** `handleCancelGeneration`. With a request to abort, the current session's interval
        is stopped once the backend accepted the cancel request (`cancelDelivered`), and
        the workflow is cleared; the aborted submission itself settles as `SubmitAborted`. */
    method CancelGeneration(cancelDelivered: bool)
      requires Valid()
      modifies this`polls, this`timers, this`workflow, this`isLoading
      ensures Valid()
      ensures !hasAbortController ==>
                polls == old(polls) && timers == old(timers) && workflow == old(workflow) && isLoading == old(isLoading)
      ensures hasAbortController ==> workflow == None && !isLoading
      ensures var s := CurrentSession(conversations, current);
              hasAbortController && s.Some? && cancelDelivered ==>
                polls == old(polls) - {s.value} && timers == Cleared(old(polls), old(timers), s.value)
      ensures var s := CurrentSession(conversations, current);
              !(hasAbortController && s.Some? && cancelDelivered) ==>
                polls == old(polls) && timers == old(timers)
    {
      if hasAbortController {
        var s := CurrentSession(conversations, current);
        if s.Some? && cancelDelivered {
          StopPolling(s.value);
        }
        workflow := None;
        isLoading := false;
      }
    }

    // ------------------------------------------------------------ conversation list

    method NewConversation(newId: Id, now: int)
      modifies this`conversations, this`current
      ensures var r := Store.NewConversation(Store.Selection(old(conversations), old(current)), newId, config, now);
              conversations == r.conversations && current == r.current
    {
      var r := Store.NewConversation(Store.Selection(conversations, current), newId, config, now);
      conversations := r.conversations;
      current := r.current;
    }

    /** Select a conversation and restore the configuration it was last used with. */
    method SelectConversation(convId: Id)
      modifies this`current, this`config
      ensures current == Some(convId)
      ensures Store.FindConversation(conversations, convId).Some? ==>
                config == conversations[Store.FindConversation(conversations, convId).value].config
      ensures Store.FindConversation(conversations, convId).None? ==> config == old(config)
    {
      current := Some(convId);
      match Store.FindConversation(conversations, convId)
      case Some(k) =>
        config := conversations[k].config;
      case None =>
    }

    method DeleteConversation(convId: Id)
      modifies this`conversations, this`current, this`storage
      ensures var d := Store.DeleteConversation(Store.Selection(old(conversations), old(current)), convId);
              && conversations == d.selection.conversations && current == d.selection.current
              && storage == if d.clearStorage then None else old(storage)
    {
      var d := Store.DeleteConversation(Store.Selection(conversations, current), convId);
      conversations := d.selection.conversations;
      current := d.selection.current;
      if d.clearStorage {
        storage := None;
      }
    }
  }
}
