/**
 * The execution context threaded through a pipeline run: a status, a key/value
 * object store and an append-only event log, with the filtered log queries.
 */
module Context {
  import opened Wrappers

  /** Run status of a context. */
  datatype Status = Undefined | InProgress | Success | Failure

  /** The six event-type constants a log entry can carry. */
  datatype EventType =
    | PipelineInProgress
    | CallingStage
    | CalledStage
    | SuccessEvent
    | FailureEvent
    | ExceptionEvent

  /** One log entry: the id of the node it concerns, its type and free-form details. */
  datatype Event = Event(id: string, eventType: EventType, details: string)

  /** `t` occurs in `s` as a contiguous substring. */
  predicate ContainsSubstring(s: string, t: string)
  {
    exists i :: 0 <= i <= |s| && t <= s[i..]
  }

  /** `Event.getId(superId)`: the enclosing id when it contains this event's id, else the empty string. */
  function EventIdWithin(e: Event, superId: string): string
  {
    if ContainsSubstring(superId, e.id) then superId else ""
  }

  /** An enclosing id that starts with the event's id always contains it. */
  lemma {:induction false} EventIdWithinPrefix(e: Event, suffix: string)
    ensures EventIdWithin(e, e.id + suffix) == e.id + suffix
  {
    var s := e.id + suffix;
    assert e.id <= s[0..];
  }

  /** An enclosing id that ends with the event's id is returned too: the match may sit anywhere. */
  lemma {:induction false} EventIdWithinSuffix(e: Event, prefix: string)
    ensures EventIdWithin(e, prefix + e.id) == prefix + e.id
  {
    var s := prefix + e.id;
    assert s[|prefix|..] == e.id;
  }

  /** An enclosing id shorter than the event's id never contains it: the result is the empty string. */
  lemma {:induction false} EventIdWithinShorter(e: Event, superId: string)
    requires |superId| < |e.id|
    ensures EventIdWithin(e, superId) == ""
  {
    forall i | 0 <= i <= |superId|
      ensures !(e.id <= superId[i..])
    {
      assert |superId[i..]| < |e.id|;
    }
  }

  /** The log entries about node `id`, in log order. */
  function StageEvents(log: seq<Event>, id: string): (r: seq<Event>)
    ensures |r| <= |log|
    ensures forall e :: e in r <==> e in log && e.id == id
  {
    if log == [] then []
    else (if log[0].id == id then [log[0]] else []) + StageEvents(log[1..], id)
  }

  /** The log entries of type EXCEPTION, in log order. */
  function ExceptionEvents(log: seq<Event>): (r: seq<Event>)
    ensures |r| <= |log|
    ensures forall e :: e in r <==> e in log && e.eventType == ExceptionEvent
  {
    if log == [] then []
    else (if log[0].eventType == ExceptionEvent then [log[0]] else []) + ExceptionEvents(log[1..])
  }

  /** Filtering a concatenated log filters each part in turn: entries keep their log order. */
  lemma {:induction false} StageEventsAppend(a: seq<Event>, b: seq<Event>, id: string)
    ensures StageEvents(a + b, id) == StageEvents(a, id) + StageEvents(b, id)
  {
    if a == [] {
      assert a + b == b;
    } else {
      assert (a + b)[0] == a[0] && (a + b)[1..] == a[1..] + b;
      StageEventsAppend(a[1..], b, id);
    }
  }

  /** The same order-preservation property for the exception filter. */
  lemma {:induction false} ExceptionEventsAppend(a: seq<Event>, b: seq<Event>)
    ensures ExceptionEvents(a + b) == ExceptionEvents(a) + ExceptionEvents(b)
  {
    if a == [] {
      assert a + b == b;
    } else {
      assert (a + b)[0] == a[0] && (a + b)[1..] == a[1..] + b;
      ExceptionEventsAppend(a[1..], b);
    }
  }

  /** The latest entry about `id`: the entry at position `k`, with no later entry about `id`. */
  ghost predicate IsLastStageEvent(log: seq<Event>, id: string, k: int)
  {
    0 <= k < |log| && log[k].id == id && forall m :: k < m < |log| ==> log[m].id != id
  }

  /** The last entry that the id filter keeps is the latest entry about `id` in the log. */
  lemma {:induction false} LastOfStageEvents(log: seq<Event>, id: string, k: int)
    requires IsLastStageEvent(log, id, k)
    ensures StageEvents(log, id) != [] && StageEvents(log, id)[|StageEvents(log, id)| - 1] == log[k]
  {
    var front, after := log[..k], log[k + 1..];
    assert log == front + [log[k]] + after;
    StageEventsAppend(front + [log[k]], after, id);
    StageEventsAppend(front, [log[k]], id);
    NoStageEvents(after, id);
    assert StageEvents([log[k]], id) == [log[k]];
  }

  /** A log with no entry about `id` filters to nothing. */
  lemma {:induction false} NoStageEvents(log: seq<Event>, id: string)
    requires forall m :: 0 <= m < |log| ==> log[m].id != id
    ensures StageEvents(log, id) == []
  {
    if log != [] {
      NoStageEvents(log[1..], id);
    }
  }

  /** The shared, mutable context of one pipeline invocation; `V` is the type of the stored objects. */
  class ExecutionContext<V> {
    var status: Status
    var objects: map<string, V>
    var eventLog: seq<Event>

    /** A fresh context: undefined status, empty store, empty log. */
    constructor ()
      ensures status == Undefined && objects == map[] && eventLog == []
    {
      status := Undefined;
      objects := map[];
      eventLog := [];
    }

    /** Appends one event about node `id`. */
    method CreateEvent(id: string, eventType: EventType, details: string)
      modifies this
      ensures eventLog == old(eventLog) + [Event(id, eventType, details)]
      ensures status == old(status) && objects == old(objects)
    {
      eventLog := eventLog + [Event(id, eventType, details)];
    }

    function GetEventLog(): seq<Event>
      reads this
    {
      eventLog
    }

    /** Stores `value` under `key`, replacing any earlier value. */
    method AddObject(key: string, value: V)
      modifies this
      ensures objects == old(objects)[key := value]
      ensures status == old(status) && eventLog == old(eventLog)
    {
      objects := objects[key := value];
    }

    /** Empties the store. */
    method ClearAllObjects()
      modifies this
      ensures objects == map[]
      ensures status == old(status) && eventLog == old(eventLog)
    {
      objects := map[];
    }

    /** The stored value, or None (Java's null) for an absent key. */
    function GetObject(key: string): (r: Option<V>)
      reads this
      ensures r.Some? <==> key in objects
      ensures r.Some? ==> r.value == objects[key]
    {
      if key in objects then Some(objects[key]) else None
    }

    predicate IsUndefined() reads this { status == Undefined }
    predicate IsSuccess() reads this { status == Success }
    predicate IsFailure() reads this { status == Failure }
    predicate IsInProgress() reads this { status == InProgress }

    method SetFailure()
      modifies this
      ensures status == Failure && objects == old(objects) && eventLog == old(eventLog)
    {
      status := Failure;
    }

    method SetSuccess()
      modifies this
      ensures status == Success && objects == old(objects) && eventLog == old(eventLog)
    {
      status := Success;
    }

    method SetInProgress()
      modifies this
      ensures status == InProgress && objects == old(objects) && eventLog == old(eventLog)
    {
      status := InProgress;
    }

    function GetStatus(): Status
      reads this
    {
      status
    }

    function GetExceptionEvents(): (r: seq<Event>)
      reads this
      ensures forall e :: e in r <==> e in eventLog && e.eventType == ExceptionEvent
    {
      ExceptionEvents(eventLog)
    }

    function GetStageEvents(id: string): (r: seq<Event>)
      reads this
      ensures forall e :: e in r <==> e in eventLog && e.id == id
    {
      StageEvents(eventLog, id)
    }

    /** Scans the log backwards for the latest entry about `id`; None when there is none. */
    method GetLastStageEvent(id: string) returns (r: Option<Event>)
      ensures r.None? <==> forall k :: 0 <= k < |eventLog| ==> eventLog[k].id != id
      ensures r.Some? ==> exists k :: IsLastStageEvent(eventLog, id, k) && eventLog[k] == r.value
    {
      var i := |eventLog|;
      while i > 0
        invariant 0 <= i <= |eventLog|
        invariant forall m :: i <= m < |eventLog| ==> eventLog[m].id != id
      {
        if eventLog[i - 1].id == id {
          assert IsLastStageEvent(eventLog, id, i - 1);
          return Some(eventLog[i - 1]);
        }
        i := i - 1;
      }
      return None;
    }
  }

  /** Exactly one of the four status predicates holds of any context. */
  lemma {:induction false} ExactlyOneStatus<V>(c: ExecutionContext<V>)
    ensures c.IsUndefined() || c.IsInProgress() || c.IsSuccess() || c.IsFailure()
    ensures !(c.IsUndefined() && c.IsInProgress()) && !(c.IsUndefined() && c.IsSuccess())
    ensures !(c.IsUndefined() && c.IsFailure()) && !(c.IsInProgress() && c.IsSuccess())
    ensures !(c.IsInProgress() && c.IsFailure()) && !(c.IsSuccess() && c.IsFailure())
  {
  }
}
