/** The file watcher (src-tauri/src/watcher.rs): the channel that the notify watcher
    feeds is a queue of received items plus whether its sending side is still alive;
    `process_events` drains it and turns create, modify and remove events into
    change items. */
module Watcher {
  import opened Wrappers

  /** notify's event kinds; the sub-kinds carried by Create, Modify and Remove do not matter here. */
  datatype EventKind = Any | Access | Create | Modify | Remove | Other

  /** An event with its paths; `None` stands for a path that is not valid UTF-8. */
  datatype Event = Event(kind: EventKind, paths: seq<Option<string>>)

  /** One item on the channel: an event, or an error the watcher reported. */
  datatype Received = Delivered(event: Event) | WatchError

  datatype FileChangeEvent = Created(path: string) | Modified(path: string) | Deleted(path: string)

  /** `TryRecvError::Disconnected`, the only error `try_recv` passes on. */
  datatype RecvError = Disconnected

  /** The change item an event kind makes of one readable path, if any. */
  function Tagged(kind: EventKind, path: string): seq<FileChangeEvent> {
    match kind
    case Create => [Created(path)]
    case Modify => [Modified(path)]
    case Remove => [Deleted(path)]
    case _ => []
  }

  /** The change items for an event's paths, in path order; unreadable paths give nothing. */
  function PathChanges(kind: EventKind, paths: seq<Option<string>>): seq<FileChangeEvent> {
    if paths == [] then []
    else
      var n := |paths| - 1;
      PathChanges(kind, paths[..n]) + (match paths[n] case Some(p) => Tagged(kind, p) case None => [])
  }

  /** The readable paths, in order. */
  function Readable(paths: seq<Option<string>>): seq<string> {
    if paths == [] then []
    else
      var n := |paths| - 1;
      Readable(paths[..n]) + (match paths[n] case Some(p) => [p] case None => [])
  }

  /** What one channel item contributes: an event's path changes; an error, nothing. */
  function ItemChanges(item: Received): seq<FileChangeEvent> {
    match item
    case Delivered(e) => PathChanges(e.kind, e.paths)
    case WatchError => []
  }

  /** The change items for a run of channel items, in channel order. */
  function Changes(items: seq<Received>): seq<FileChangeEvent> {
    if items == [] then []
    else Changes(items[..|items| - 1]) + ItemChanges(items[|items| - 1])
  }

  /** How many items one `process_events` call takes off the queue: up to and
      including the first error, or all of them. */
  function DrainLength(q: seq<Received>): (n: nat)
    ensures n <= |q|
  {
    if q == [] then 0
    else if q[0].WatchError? then 1
    else 1 + DrainLength(q[1..])
  }

  /** Change items of consecutive runs concatenate. */
  lemma {:induction false} ChangesConcat(a: seq<Received>, b: seq<Received>)
    ensures Changes(a + b) == Changes(a) + Changes(b)
  {
    if b != [] {
      var n := |b| - 1;
      assert (a + b)[..|a + b| - 1] == a + b[..n];
      assert (a + b)[|a + b| - 1] == b[n];
      assert Changes(a + b) == Changes(a + b[..n]) + ItemChanges(b[n]);
      ChangesConcat(a, b[..n]);
      assert Changes(b) == Changes(b[..n]) + ItemChanges(b[n]);
    } else {
      assert a + b == a;
    }
  }

  /** Readable paths are exactly the UTF-8 ones, in order. */
  lemma {:induction false} ReadableIsTheValidPaths(paths: seq<Option<string>>)
    ensures forall p :: p in Readable(paths) <==> Some(p) in paths
    ensures |Readable(paths)| <= |paths|
  {
    if paths != [] {
      var n := |paths| - 1;
      ReadableIsTheValidPaths(paths[..n]);
      assert paths == paths[..n] + [paths[n]];
    }
  }

  /** A create, modify or remove event yields one item of the matching kind per
      readable path, in path order. */
  lemma {:induction false} TrackedKindYieldsOnePerPath(kind: EventKind, paths: seq<Option<string>>)
    requires kind == Create || kind == Modify || kind == Remove
    ensures var cs := PathChanges(kind, paths);
      && |cs| == |Readable(paths)|
      && forall i | 0 <= i < |cs| :: [cs[i]] == Tagged(kind, Readable(paths)[i])
  {
    if paths != [] {
      var n := |paths| - 1;
      TrackedKindYieldsOnePerPath(kind, paths[..n]);
    }
  }

  /** Every other event kind is consumed without producing anything. */
  lemma {:induction false} OtherKindsYieldNothing(kind: EventKind, paths: seq<Option<string>>)
    requires kind != Create && kind != Modify && kind != Remove
    ensures PathChanges(kind, paths) == []
  {
    if paths != [] {
      OtherKindsYieldNothing(kind, paths[..|paths| - 1]);
    }
  }

  /** Draining takes a prefix of the queue, every item of which but the last is an
      event; it stops early only right after an error. */
  lemma {:induction false} DrainStopsAtFirstError(q: seq<Received>)
    ensures DrainLength(q) <= |q|
    ensures forall i | 0 <= i < DrainLength(q) - 1 :: q[i].Delivered?
    ensures DrainLength(q) < |q| ==> DrainLength(q) > 0 && q[DrainLength(q) - 1].WatchError?
    ensures DrainLength(q) == |q| && q != [] ==> q[|q| - 1].WatchError? || forall i | 0 <= i < |q| :: q[i].Delivered?
  {
    if q != [] && q[0].Delivered? {
      DrainStopsAtFirstError(q[1..]);
      assert forall i | 1 <= i < |q| :: q[i] == q[1..][i - 1];
    }
  }

  /** A queue position reached by taking only events, then one error or the end,
      is the drain length. */
  lemma {:induction false} DrainLengthAt(q: seq<Received>, k: nat)
    requires k <= |q| && forall i | 0 <= i < k :: q[i].Delivered?
    requires k < |q| ==> q[k].WatchError?
    ensures DrainLength(q) == if k < |q| then k + 1 else k
  {
    if k > 0 {
      assert forall i | 0 <= i < k - 1 :: q[1..][i] == q[i + 1];
      DrainLengthAt(q[1..], k - 1);
    }
  }

  /** Taking one more event adds its path changes. */
  lemma DrainStep(q: seq<Received>, taken: nat)
    requires taken < |q| && q[taken].Delivered?
    ensures Changes(q[..taken + 1]) == Changes(q[..taken]) + PathChanges(q[taken].event.kind, q[taken].event.paths)
  {
    assert q[..taken + 1][..taken] == q[..taken];
  }

  /** An error item adds no change. */
  lemma ErrorAddsNothing(q: seq<Received>, k: nat)
    requires k < |q| && q[k].WatchError?
    ensures Changes(q[..k + 1]) == Changes(q[..k])
  {
    assert q[..k + 1][..k] == q[..k];
  }

  /** Draining that has taken only events and then meets an error or the end has
      taken the drain length, and the error adds no change. */
  lemma DrainEnds(q: seq<Received>, taken: nat)
    requires taken <= |q| && forall i | 0 <= i < taken :: q[i].Delivered?
    requires taken < |q| ==> q[taken].WatchError?
    ensures DrainLength(q) == if taken < |q| then taken + 1 else taken
    ensures Changes(q[..DrainLength(q)]) == Changes(q[..taken])
  {
    DrainLengthAt(q, taken);
    if taken < |q| {
      ErrorAddsNothing(q, taken);
    }
  }

  /** The body of `process_events`'s match on one event: a loop over its paths for
      the three tracked kinds, nothing for the others. */
  method EventChanges(event: Event) returns (changes: seq<FileChangeEvent>)
    ensures changes == PathChanges(event.kind, event.paths)
  {
    changes := [];
    match event.kind {
      case Create =>
        for j := 0 to |event.paths|
          invariant changes == PathChanges(event.kind, event.paths[..j])
        {
          assert event.paths[..j + 1][..j] == event.paths[..j];
          if event.paths[j].Some? {
            changes := changes + [Created(event.paths[j].value)];
          }
        }
      case Modify =>
        for j := 0 to |event.paths|
          invariant changes == PathChanges(event.kind, event.paths[..j])
        {
          assert event.paths[..j + 1][..j] == event.paths[..j];
          if event.paths[j].Some? {
            changes := changes + [Modified(event.paths[j].value)];
          }
        }
      case Remove =>
        for j := 0 to |event.paths|
          invariant changes == PathChanges(event.kind, event.paths[..j])
        {
          assert event.paths[..j + 1][..j] == event.paths[..j];
          if event.paths[j].Some? {
            changes := changes + [Deleted(event.paths[j].value)];
          }
        }
      case _ =>
        OtherKindsYieldNothing(event.kind, event.paths);
    }
    assert event.paths[..|event.paths|] == event.paths;
  }

  /** The watcher's receiving side. */
  class FileWatcher {
    var queue: seq<Received>
    var senderAlive: bool

    constructor (pending: seq<Received>, senderAlive: bool)
      ensures queue == pending && this.senderAlive == senderAlive
    {
      queue := pending;
      this.senderAlive := senderAlive;
    }

    /** `try_recv`: takes the head item if there is one (an error item is logged and
        reads as nothing); on an empty queue, nothing while the sender lives and
        `Disconnected` once it is gone. */
    method TryRecv() returns (r: Result<Option<Event>, RecvError>)
      modifies this`queue
      ensures old(queue) != [] ==>
        queue == old(queue)[1..] && r == Ok(if old(queue)[0].Delivered? then Some(old(queue)[0].event) else None)
      ensures old(queue) == [] ==>
        queue == [] && r == (if senderAlive then Ok(None) else Err(Disconnected))
    {
      if queue == [] {
        return if senderAlive then Ok(None) else Err(Disconnected);
      }
      var item := queue[0];
      queue := queue[1..];
      match item
      case Delivered(e) => r := Ok(Some(e));
      case WatchError => r := Ok(None);
    }

    /** `process_events`: drains the queue up to the first error item or the end and
        returns the change items of the events it took; items after an error stay queued. */
    method ProcessEvents() returns (changes: seq<FileChangeEvent>)
      modifies this`queue
      ensures queue == old(queue)[DrainLength(old(queue))..]
      ensures changes == Changes(old(queue)[..DrainLength(old(queue))])
    {
      ghost var q := queue;
      changes := [];
      ghost var taken: nat := 0;
      while true
        invariant taken <= |q| && queue == q[taken..]
        invariant forall i | 0 <= i < taken :: q[i].Delivered?
        invariant changes == Changes(q[..taken])
        decreases |queue|
      {
        var r := TryRecv();
        if r.Err? || r.value.None? {
          DrainEnds(q, taken);
          break;
        }
        var more := EventChanges(r.value.value);
        DrainStep(q, taken);
        changes := changes + more;
        taken := taken + 1;
      }
    }
  }
}
