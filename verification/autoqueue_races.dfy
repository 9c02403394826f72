/** Interleavings of calls, replies and connectivity changes in the
    autoqueue store: what happens when a reply arrives after the list it
    was issued against has changed. */
module AutoQueueRaces {
  import opened Wrappers
  import opened Seqs
  import opened JsStrings
  import opened AutoQueue

  /** The encoder used by the concrete scenarios; any encoder gives the same
      lists, only the request paths differ. */
  function Plain(x: string): string { x }

  /** The confirmation a remove evidently intends: look the pattern up in
      the list current at confirmation and drop that element; a pattern no
      longer present leaves the list unchanged. */
  function ConfirmRemoveRelookup(current: seq<string>, pattern: string): (r: seq<string>)
    ensures pattern !in current ==> r == current
    ensures forall k :: 0 <= k < |current| && current[k] == pattern &&
                        (forall j :: 0 <= j < k ==> current[j] != pattern) ==>
              r == current[..k] + current[k + 1..]
  {
    var index := IndexOf(current, pattern);
    if index < 0 then current else ListRemove(current, index)
  }

  /** Whatever happened to the list while the remove was in flight, the
      re-lookup confirmation takes exactly the pattern out of a
      duplicate-free list, independent of the call-time snapshot. */
  lemma RelookupRemovesPatternAfterAnyChange(current: seq<string>, pattern: string)
    requires NoDuplicates(current)
    ensures var r := ConfirmRemoveRelookup(current, pattern);
            && pattern !in r
            && NoDuplicates(r)
            && (pattern in current ==> |r| == |current| - 1)
            && (forall y :: y != pattern ==> (y in r <==> y in current))
  {
    if pattern in current {
      RemoveIndexOf(current, pattern);
    }
  }

  /** As written, two removes issued back to back desynchronise the list:
      from ["a", "b", "c"], removing "a" and then "c" (both confirmed)
      leaves ["b", "c"], because the second confirmation uses index 2 from
      its snapshot on a list that is now only two long. */
  lemma ConcurrentRemovesKeepRemovedPattern()
    ensures var s0 := Store(["a", "b", "c"], map[], 0);
            var s1 := Remove(s0, "a", Plain).store;
            var s2 := Remove(s1, "c", Plain).store;
            var s3 := OnReply(s2, 0, Succeeded([])).store;
            var s4 := OnReply(s3, 1, Succeeded([])).store;
            s4.patterns == ["b", "c"] && "c" in s4.patterns
  {
  }

  /** As written, the desynchronised index can also remove the wrong
      pattern: from ["a", "b", "c"], removing "a" and then "b" (both
      confirmed) leaves ["b"], because the second confirmation uses index 1
      from its snapshot, which now addresses "c". */
  lemma ConcurrentRemovesDropWrongPattern()
    ensures var s0 := Store(["a", "b", "c"], map[], 0);
            var s1 := Remove(s0, "a", Plain).store;
            var s2 := Remove(s1, "b", Plain).store;
            var s3 := OnReply(s2, 0, Succeeded([])).store;
            var s4 := OnReply(s3, 1, Succeeded([])).store;
            s4.patterns == ["b"] && "b" in s4.patterns && "c" !in s4.patterns
  {
  }

  /** With the re-lookup confirmation, removing "a" and then "c" leaves
      ["b"]. */
  lemma ConcurrentRemovesWithRelookup()
    ensures ConfirmRemoveRelookup(ConfirmRemoveRelookup(["a", "b", "c"], "a"), "c") == ["b"]
  {
  }

  /** With the re-lookup confirmation, removing "a" and then "b" leaves
      ["c"]. */
  lemma ConcurrentRemovesWithRelookupKeepOther()
    ensures ConfirmRemoveRelookup(ConfirmRemoveRelookup(["a", "b", "c"], "a"), "b") == ["c"]
  {
  }

  /** A remove confirmed after a disconnect emptied the list leaves it
      empty: the snapshot index no longer addresses an element. */
  lemma RemoveConfirmedAfterDisconnect(s: Store, pattern: string, enc: string -> string, data: seq<string>)
    requires WellFormed(s) && pattern in s.patterns
    ensures var s1 := Step(s, CallRemove(pattern), enc).store;
            var s2 := Step(s1, ConnectedChanged(false), enc).store;
            var s3 := Step(s2, ReplyArrived(s.nextId, Succeeded(data)), enc).store;
            s3.patterns == [] && s.nextId !in s3.pending
  {
  }

  /** An add confirmed after a disconnect emptied the list is still
      appended: there is no guard against stale confirmations. */
  lemma AddConfirmedAfterDisconnect(s: Store, pattern: string, enc: string -> string, data: seq<string>)
    requires WellFormed(s) && !IsBlank(pattern) && pattern !in s.patterns
    ensures var s1 := Step(s, CallAdd(Some(pattern)), enc).store;
            var s2 := Step(s1, ConnectedChanged(false), enc).store;
            var s3 := Step(s2, ReplyArrived(s.nextId, Succeeded(data)), enc).store;
            s3.patterns == [pattern]
  {
  }

  /** An add call for a valid new pattern records one pending add under
      the next id and leaves the list alone. */
  lemma AddCallRecordsPending(s: Store, pattern: string, enc: string -> string)
    requires WellFormed(s) && !IsBlank(pattern) && pattern !in s.patterns
    ensures Step(s, CallAdd(Some(pattern)), enc).store ==
            Store(s.patterns, s.pending[s.nextId := AddOp(pattern)], s.nextId + 1)
  {
  }

  /** A successful reply to a pending add appends its pattern to the list
      current at that moment and retires the request. */
  lemma AddReplyAppends(s: Store, id: nat, pattern: string, data: seq<string>, enc: string -> string)
    requires WellFormed(s) && id in s.pending && s.pending[id] == AddOp(pattern)
    ensures var t := Step(s, ReplyArrived(id, Succeeded(data)), enc).store;
            t.patterns == s.patterns + [pattern] && t.pending == s.pending - {id}
  {
    var t := OnReply(s, id, Succeeded(data));
    assert t.effect == Published(s.patterns + [pattern]);
  }

  /** Two in-flight adds of the same pattern both pass the duplicate check,
      so two successful replies leave it in the list twice:
      `AddConfirmedKeepsUnique` needs the add to be confirmed before another
      add of that pattern is issued. */
  lemma ConcurrentAddsDuplicate(s: Store, pattern: string, enc: string -> string, data: seq<string>)
    requires WellFormed(s) && !IsBlank(pattern) && pattern !in s.patterns
    ensures var s1 := Step(s, CallAdd(Some(pattern)), enc).store;
            var s2 := Step(s1, CallAdd(Some(pattern)), enc).store;
            var s3 := Step(s2, ReplyArrived(s.nextId, Succeeded(data)), enc).store;
            var s4 := Step(s3, ReplyArrived(s.nextId + 1, Succeeded(data)), enc).store;
            && s4.patterns == s.patterns + [pattern, pattern]
            && !NoDuplicates(s4.patterns)
  {
    AddCallRecordsPending(s, pattern, enc);
    var s1 := Step(s, CallAdd(Some(pattern)), enc).store;
    AddCallRecordsPending(s1, pattern, enc);
    var s2 := Step(s1, CallAdd(Some(pattern)), enc).store;
    AddReplyAppends(s2, s.nextId, pattern, data, enc);
    var s3 := Step(s2, ReplyArrived(s.nextId, Succeeded(data)), enc).store;
    AddReplyAppends(s3, s.nextId + 1, pattern, data, enc);
    var s4 := Step(s3, ReplyArrived(s.nextId + 1, Succeeded(data)), enc).store;
    assert s4.patterns == s.patterns + [pattern] + [pattern];
    assert s4.patterns[|s.patterns|] == s4.patterns[|s.patterns| + 1];
  }
}
