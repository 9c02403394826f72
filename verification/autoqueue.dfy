/** The autoqueue pattern store: an ordered list of pattern strings mirrored
    from the server. `add` and `remove` validate against the local list,
    then send a request; the local list changes only when a successful reply
    arrives. Connectivity changes clear the list or refetch it.

    Remote replies are explicit events: a call yields the request it sends,
    and a later `ReplyArrived` event delivers that request's reply. The URL
    encoder (`encodeURIComponent`) is a parameter `enc`. */
module AutoQueue {
  import opened Wrappers
  import opened Seqs
  import opened JsStrings

  const GetPath: string := "/server/autoqueue/get"
  const AddPathPrefix: string := "/server/autoqueue/add/"
  const RemovePathPrefix: string := "/server/autoqueue/remove/"

  /** Stand-in for the localized notification text of the empty-pattern
      rejection; the text itself lives in the localization table. */
  const PatternEmptyNotice: string := "AUTOQUEUE_PATTERN_EMPTY"

  function AlreadyExistsMessage(pattern: string): string {
    "Pattern '" + pattern + "' already exists."
  }

  function NotFoundMessage(pattern: string): string {
    "Pattern '" + pattern + "' not found."
  }

  /** The outcome envelope handed back to the caller of `add` / `remove`. */
  datatype WebReaction = WebReaction(success: bool, data: Option<string>, errorMessage: Option<string>)

  function Rejection(message: string): WebReaction {
    WebReaction(false, None, Some(message))
  }

  /** What an in-flight request will do to the list when it succeeds. A
      remove carries the list as it was when `remove` was called. */
  datatype Op =
    | AddOp(pattern: string)
    | RemoveOp(pattern: string, snapshot: seq<string>)
    | GetOp

  datatype Request = Request(id: nat, path: string, op: Op)

  /** A reply as the store sees it: for a fetch, the patterns of the parsed
      JSON array in order; for add and remove the payload is ignored. */
  datatype Reply = Succeeded(fetched: seq<string>) | Failed

  datatype Store = Store(patterns: seq<string>, pending: map<nat, Op>, nextId: nat)

  datatype Effect =
    | Rejected(reaction: WebReaction)   // answered locally, no request sent
    | Sent(request: Request)            // a request went out
    | Published(list: seq<string>)      // the pattern list was pushed to subscribers
    | Silent

  datatype Transition = Transition(store: Store, effect: Effect)

  datatype Event =
    | CallAdd(candidate: Option<string>)
    | CallRemove(pattern: string)
    | ReplyArrived(id: nat, reply: Reply)
    | ConnectedChanged(connected: bool)

  /** Request ids are fresh, and a pending remove's snapshot holds its
      pattern (the call checked it). */
  ghost predicate WellFormed(s: Store) {
    && (forall id :: id in s.pending ==> id < s.nextId)
    && (forall id :: id in s.pending && s.pending[id].RemoveOp? ==>
          s.pending[id].pattern in s.pending[id].snapshot)
  }

  /** The store at construction: empty, nothing in flight. */
  function Initial(): (s: Store)
    ensures s.patterns == [] && s.pending == map[]
    ensures WellFormed(s)
  {
    Store([], map[], 0)
  }

  /** The path of an add or remove request: the fixed prefix followed by
      the pattern encoded twice. */
  function PatternPath(prefix: string, enc: string -> string, pattern: string): string {
    prefix + enc(enc(pattern))
  }

  /** Whatever decoder inverts the encoder recovers the pattern from the
      path by stripping the prefix and decoding twice. */
  lemma PatternPathRoundTrip(prefix: string, enc: string -> string, dec: string -> string, pattern: string)
    requires forall x :: dec(enc(x)) == x
    ensures var path := PatternPath(prefix, enc, pattern);
            && |prefix| <= |path|
            && path[..|prefix|] == prefix
            && dec(dec(path[|prefix|..])) == pattern
  {
  }

  function Send(s: Store, path: string, op: Op): (t: Transition)
    ensures t.effect == Sent(Request(s.nextId, path, op))
    ensures t.store.patterns == s.patterns
    ensures t.store.pending == s.pending[s.nextId := op]
    ensures t.store.nextId == s.nextId + 1
  {
    Transition(Store(s.patterns, s.pending[s.nextId := op], s.nextId + 1),
               Sent(Request(s.nextId, path, op)))
  }

  /** `add(pattern)`. A missing or blank pattern and a pattern already in
      the list are rejected locally; otherwise an add request is sent and
      the list is left as it is until the reply. */
  function Add(s: Store, pattern: Option<string>, enc: string -> string): (t: Transition)
    ensures pattern.None? || IsBlank(pattern.value) ==>
              t == Transition(s, Rejected(WebReaction(false, None, Some(PatternEmptyNotice))))
    ensures pattern.Some? && !IsBlank(pattern.value) && pattern.value in s.patterns ==>
              t == Transition(s, Rejected(WebReaction(false, None, Some(AlreadyExistsMessage(pattern.value)))))
    ensures pattern.Some? && !IsBlank(pattern.value) && pattern.value !in s.patterns ==>
              && t.effect == Sent(Request(s.nextId, AddPathPrefix + enc(enc(pattern.value)), AddOp(pattern.value)))
              && t.store.patterns == s.patterns
              && t.store.pending == s.pending[s.nextId := AddOp(pattern.value)]
              && t.store.nextId == s.nextId + 1
  {
    if pattern.None? || |Trim(pattern.value)| == 0 then
      Transition(s, Rejected(Rejection(PatternEmptyNotice)))
    else
      var p := pattern.value;
      if IndexOf(s.patterns, p) >= 0 then
        Transition(s, Rejected(Rejection(AlreadyExistsMessage(p))))
      else
        Send(s, PatternPath(AddPathPrefix, enc, p), AddOp(p))
  }

  /** `remove(pattern)`. A pattern not in the list is rejected locally;
      otherwise a remove request is sent carrying the current list as its
      snapshot, and the list is left as it is until the reply. */
  function Remove(s: Store, pattern: string, enc: string -> string): (t: Transition)
    ensures pattern !in s.patterns ==>
              t == Transition(s, Rejected(WebReaction(false, None, Some(NotFoundMessage(pattern)))))
    ensures pattern in s.patterns ==>
              && t.effect == Sent(Request(s.nextId, RemovePathPrefix + enc(enc(pattern)), RemoveOp(pattern, s.patterns)))
              && t.store.patterns == s.patterns
              && t.store.pending == s.pending[s.nextId := RemoveOp(pattern, s.patterns)]
              && t.store.nextId == s.nextId + 1
  {
    var snapshot := s.patterns;
    if IndexOf(snapshot, pattern) < 0 then
      Transition(s, Rejected(Rejection(NotFoundMessage(pattern))))
    else
      Send(s, PatternPath(RemovePathPrefix, enc, pattern), RemoveOp(pattern, snapshot))
  }

  /** The list after a successful remove reply: the element at the index
      the pattern had in the call-time snapshot is dropped from the list
      current at confirmation. */
  function ConfirmRemove(current: seq<string>, pattern: string, snapshot: seq<string>): (r: seq<string>)
    requires pattern in snapshot
    ensures forall k :: 0 <= k < |snapshot| && snapshot[k] == pattern &&
                        (forall j :: 0 <= j < k ==> snapshot[j] != pattern) ==>
              && (k < |current| ==> r == current[..k] + current[k + 1..])
              && (k >= |current| ==> r == current)
  {
    var finalIndex := IndexOf(snapshot, pattern);
    ListRemove(current, finalIndex)
  }

  /** `getPatterns` reply: a successful fetch replaces the list wholesale,
      in the fetched order; a failed one empties it. */
  function OnFetchReply(reply: Reply): (list: seq<string>)
    ensures reply.Succeeded? ==> list == reply.fetched
    ensures reply.Failed? ==> list == []
  {
    match reply
    case Succeeded(fetched) => fetched
    case Failed => []
  }

  /** `add` reply: on success the pattern is appended to the list current
      now (whatever it is) and the new list is published; on failure
      nothing is published (None). */
  function OnAddReply(current: seq<string>, pattern: string, reply: Reply): (published: Option<seq<string>>)
    ensures reply.Succeeded? ==>
              && published.Some?
              && |published.value| == |current| + 1
              && published.value[..|current|] == current
              && published.value[|current|] == pattern
    ensures reply.Failed? ==> published.None?
  {
    if reply.Succeeded? then Some(current + [pattern]) else None
  }

  /** `remove` reply: on success the list with the snapshot-index element
      dropped is published; on failure nothing is published (None). */
  function OnRemoveReply(current: seq<string>, pattern: string, snapshot: seq<string>, reply: Reply): (published: Option<seq<string>>)
    requires pattern in snapshot
    ensures reply.Succeeded? ==>
              && published.Some?
              && forall k :: 0 <= k < |snapshot| && snapshot[k] == pattern &&
                             (forall j :: 0 <= j < k ==> snapshot[j] != pattern) ==>
                   published.value == (if k < |current| then current[..k] + current[k + 1..] else current)
    ensures reply.Failed? ==> published.None?
  {
    if reply.Succeeded? then Some(ConfirmRemove(current, pattern, snapshot)) else None
  }

  /** A reply for request `id` arrives. An unknown id changes nothing.
      Otherwise the request is no longer pending, and the list and the
      effect are those of the reply handler for the request's kind:
      a published list becomes the store's list, and an unpublished reply
      leaves the list as it was. */
  function OnReply(s: Store, id: nat, reply: Reply): (t: Transition)
    requires WellFormed(s)
    ensures id !in s.pending ==> t == Transition(s, Silent)
    ensures id in s.pending ==>
              && t.store.pending == s.pending - {id}
              && t.store.nextId == s.nextId
              && (t.effect.Silent? || t.effect == Published(t.store.patterns))
              && (t.effect.Silent? ==> t.store.patterns == s.patterns)
    ensures id in s.pending && s.pending[id].AddOp? ==>
              t.effect == (match OnAddReply(s.patterns, s.pending[id].pattern, reply)
                           case Some(list) => Published(list)
                           case None => Silent)
    ensures id in s.pending && s.pending[id].RemoveOp? ==>
              t.effect == (match OnRemoveReply(s.patterns, s.pending[id].pattern, s.pending[id].snapshot, reply)
                           case Some(list) => Published(list)
                           case None => Silent)
    ensures id in s.pending && s.pending[id].GetOp? ==>
              t.effect == Published(OnFetchReply(reply))
    ensures WellFormed(t.store)
  {
    if id !in s.pending then Transition(s, Silent)
    else
      var pending := s.pending - {id};
      var published := match s.pending[id]
        case AddOp(p) => OnAddReply(s.patterns, p, reply)
        case RemoveOp(p, snapshot) => OnRemoveReply(s.patterns, p, snapshot, reply)
        case GetOp => Some(OnFetchReply(reply));
      match published
      case Some(list) => Transition(Store(list, pending, s.nextId), Published(list))
      case None => Transition(Store(s.patterns, pending, s.nextId), Silent)
  }

  /** `onConnectedChanged`: losing the connection publishes an empty list at
      once; regaining it sends a fetch whose reply replaces the list. */
  function OnConnectedChanged(s: Store, connected: bool): (t: Transition)
    ensures !connected ==>
              && t.store == Store([], s.pending, s.nextId)
              && t.effect == Published([])
    ensures connected ==>
              && t.effect == Sent(Request(s.nextId, GetPath, GetOp))
              && t.store.patterns == s.patterns
              && t.store.pending == s.pending[s.nextId := GetOp]
              && t.store.nextId == s.nextId + 1
  {
    if connected then Send(s, GetPath, GetOp)
    else Transition(Store([], s.pending, s.nextId), Published([]))
  }

  /** One event applied to the store. */
  function Step(s: Store, e: Event, enc: string -> string): (t: Transition)
    requires WellFormed(s)
    ensures WellFormed(t.store)
    ensures !e.ReplyArrived? ==> t.store.pending.Keys >= s.pending.Keys
    ensures e.CallAdd? || e.CallRemove? ==> t.store.patterns == s.patterns
  {
    match e
    case CallAdd(p) => Add(s, p, enc)
    case CallRemove(p) => Remove(s, p, enc)
    case ReplyArrived(id, reply) => OnReply(s, id, reply)
    case ConnectedChanged(c) => OnConnectedChanged(s, c)
  }

  /** A sequence of events applied in order. */
  function Run(s: Store, events: seq<Event>, enc: string -> string): (r: Store)
    requires WellFormed(s)
    ensures WellFormed(r)
    decreases |events|
  {
    if |events| == 0 then s
    else Run(Step(s, events[0], enc).store, events[1..], enc)
  }

  /** A successful add with no event in between keeps the list free of
      duplicates: the new pattern occurs exactly once, at the end, after
      the earlier patterns in their order. */
  lemma AddConfirmedKeepsUnique(s: Store, pattern: string, enc: string -> string, data: seq<string>)
    requires WellFormed(s)
    requires NoDuplicates(s.patterns)
    requires !IsBlank(pattern) && pattern !in s.patterns
    ensures var call := Add(s, Some(pattern), enc);
            && call.effect.Sent?
            && var done := OnReply(call.store, call.effect.request.id, Succeeded(data));
               && NoDuplicates(done.store.patterns)
               && multiset(done.store.patterns)[pattern] == 1
               && done.store.patterns == s.patterns + [pattern]
  {
  }

  /** A successful remove with no event in between takes out the pattern
      and nothing else: the list is one shorter, the pattern is gone, every
      other pattern is still there and the list stays duplicate-free. */
  lemma RemoveConfirmedDropsPattern(s: Store, pattern: string, enc: string -> string, data: seq<string>)
    requires WellFormed(s)
    requires NoDuplicates(s.patterns)
    requires pattern in s.patterns
    ensures var call := Remove(s, pattern, enc);
            && call.effect.Sent?
            && var done := OnReply(call.store, call.effect.request.id, Succeeded(data));
               && |done.store.patterns| == |s.patterns| - 1
               && pattern !in done.store.patterns
               && NoDuplicates(done.store.patterns)
               && (forall y :: y != pattern ==> (y in done.store.patterns <==> y in s.patterns))
  {
  }

  /** Reconnecting resynchronises the list: a connect followed by the reply
      to its fetch leaves exactly the fetched patterns, in order (or an
      empty list when the fetch fails), publishes that list and retires the
      fetch, whatever the list held before. */
  lemma ReconnectFetchReplacesList(s: Store, reply: Reply, enc: string -> string)
    requires WellFormed(s)
    ensures var s1 := Step(s, ConnectedChanged(true), enc).store;
            var t := Step(s1, ReplyArrived(s.nextId, reply), enc);
            && t.store.patterns == (if reply.Succeeded? then reply.fetched else [])
            && t.effect == Published(t.store.patterns)
            && s.nextId !in t.store.pending
  {
  }
}
