/**
  The receiving and sending side of `UartAdapter` in `uart_common_classes.py`: the list of
  registered observers, the buffer of bytes not yet made into frames, the queue of outgoing
  byte strings, and one pass of the `run` loop. The serial port thread and the queues between
  the threads are not part of this model: a pass of `run` is given the chunk of bytes it read,
  and the outgoing queue is a sequence the adapter appends to.
*/
module UartAdapters {
  import opened Bytes
  import opened Crc
  import opened UartFrames

  /** A `UartAdapterObserver`: only its identity matters to the adapter. */
  class Observer {
    constructor ()
    {
    }
  }

  /** One call of `new_frame_notification`: the observer called and the frame it was given. */
  datatype Notification = Notification(observer: Observer, frame: seq<uint8>)

  /** No observer appears twice. */
  predicate NoDuplicates(s: seq<Observer>)
  {
    forall i, j :: 0 <= i < j < |s| ==> s[i] != s[j]
  }

  /** `list.remove`: the list without the first occurrence of o (unchanged when o is absent). */
  function Remove(s: seq<Observer>, o: Observer): (r: seq<Observer>)
    ensures |r| == if o in s then |s| - 1 else |s|
    ensures forall x :: x in r ==> x in s
    ensures forall x :: x in s && x != o ==> x in r
  {
    if s == [] then []
    else if s[0] == o then s[1..]
    else [s[0]] + Remove(s[1..], o)
  }

  /** In a list without repeats the first element does not come back later. */
  lemma HeadNotInTail(s: seq<Observer>)
    requires NoDuplicates(s) && s != []
    ensures s[0] !in s[1..]
  {
    forall x | x in s[1..]
      ensures x != s[0]
    {
      var k :| 0 <= k < |s[1..]| && s[1..][k] == x;
      assert s[k + 1] == x;
    }
  }

  /** Removing from a list without repeats leaves a list without repeats and without o. */
  lemma {:induction false} RemoveDistinct(s: seq<Observer>, o: Observer)
    requires NoDuplicates(s)
    ensures NoDuplicates(Remove(s, o)) && o !in Remove(s, o)
  {
    if s != [] && s[0] != o {
      assert NoDuplicates(s[1..]) by {
        forall i, j | 0 <= i < j < |s[1..]|
          ensures s[1..][i] != s[1..][j]
        {
          assert s[1..][i] == s[i + 1] && s[1..][j] == s[j + 1];
        }
      }
      RemoveDistinct(s[1..], o);
      var rest := Remove(s[1..], o);
      HeadNotInTail(s);
      assert s[0] !in rest;
      var r := [s[0]] + rest;
      forall i, j | 0 <= i < j < |r|
        ensures r[i] != r[j]
      {
        if i > 0 {
          assert r[i] == rest[i - 1] && r[j] == rest[j - 1];
        } else {
          assert r[j] == rest[j - 1] && r[j] in rest;
        }
      }
    } else if s != [] {
      HeadNotInTail(s);
      forall i, j | 0 <= i < j < |s[1..]|
        ensures s[1..][i] != s[1..][j]
      {
        assert s[1..][i] == s[i + 1] && s[1..][j] == s[j + 1];
      }
    }
  }

  /** The calls `_insert_parsed_frame` makes for one frame: each observer in list order. */
  function Notifications(observers: seq<Observer>, frame: seq<uint8>): (r: seq<Notification>)
    ensures |r| == |observers|
  {
    seq(|observers|, i requires 0 <= i < |observers| => Notification(observers[i], frame))
  }

  /** The calls made for several frames, frame by frame. */
  function NotifyAll(observers: seq<Observer>, frames: seq<seq<uint8>>): (r: seq<Notification>)
    ensures |r| == |observers| * |frames|
  {
    if frames == [] then [] else Notifications(observers, frames[0]) + NotifyAll(observers, frames[1..])
  }

  /** Announcing one frame more appends that frame's calls. */
  lemma {:induction false} NotifyAllAppend(observers: seq<Observer>, frames: seq<seq<uint8>>, frame: seq<uint8>)
    ensures NotifyAll(observers, frames + [frame]) == NotifyAll(observers, frames) + Notifications(observers, frame)
  {
    if frames == [] {
      assert frames + [frame] == [frame];
    } else {
      assert (frames + [frame])[1..] == frames[1..] + [frame];
      NotifyAllAppend(observers, frames[1..], frame);
    }
  }

  /** A frame the adapter queued framed, read back in one chunk, reaches every observer once. */
  lemma LoopbackDelivery(observers: seq<Observer>, f: seq<uint8>)
    requires ValidFrame(f)
    ensures ExtractFrames(WireFrame(f)).1 == []
    ensures NotifyAll(observers, ExtractFrames(WireFrame(f)).0) == Notifications(observers, f)
  {
    ExtractOneFrame(f);
    assert [f][1..] == [];
  }

  /**
    A frame that arrives in two chunks is announced by the pass that completes it and not
    before: the first pass keeps the partial frame buffered.
  */
  lemma SplitDelivery(observers: seq<Observer>, f: seq<uint8>, k: nat)
    requires ValidFrame(f) && k < |WireFrame(f)|
    ensures ExtractFrames(WireFrame(f)[..k]) == ([], WireFrame(f)[..k])
    ensures NotifyAll(observers, ExtractFrames(WireFrame(f)[..k] + WireFrame(f)[k..]).0)
            == Notifications(observers, f)
  {
    Reassembly(f, k);
    assert [f][1..] == [];
  }

  /** Frames sent back to back are announced in the order they were sent. */
  lemma StreamDelivery(observers: seq<Observer>, fs: seq<seq<uint8>>)
    requires forall f | f in fs :: ValidFrame(f)
    ensures ExtractFrames(WireFrames(fs)).1 == []
    ensures NotifyAll(observers, ExtractFrames(WireFrames(fs)).0) == NotifyAll(observers, fs)
  {
    ExtractWireFrames(fs, []);
    assert WireFrames(fs) + [] == WireFrames(fs);
    assert fs + [] == fs;
  }

  class UartAdapter {
    /** `observers`. */
    var observers: seq<Observer>
    /** `not_processed_buffer_data` of `run`. */
    var buffer: seq<uint8>
    /** What has been put on `_out_queue`, oldest first. */
    var outQueue: seq<seq<uint8>>
    /** Every `new_frame_notification` call made so far, oldest first. */
    var notified: seq<Notification>

    /** `register_observer` never lets an observer in twice. */
    ghost predicate Valid()
      reads this
    {
      NoDuplicates(observers)
    }

    /** A new adapter: no observers, nothing buffered, nothing sent or announced. */
    constructor ()
      ensures Valid()
      ensures observers == [] && buffer == [] && outQueue == [] && notified == []
    {
      observers := [];
      buffer := [];
      outQueue := [];
      notified := [];
    }

    /** `register_observer`: appends the observer unless it is registered already. */
    method RegisterObserver(o: Observer)
      requires Valid()
      modifies this
      ensures Valid()
      ensures observers == if o in old(observers) then old(observers) else old(observers) + [o]
      ensures o in observers
      ensures buffer == old(buffer) && outQueue == old(outQueue) && notified == old(notified)
    {
      if o !in observers {
        observers := observers + [o];
      }
    }

    /**
      `unregister_observer`: removes the observer; `found` is false when it was not
      registered, where the source's `list.remove` raises ValueError and nothing changes.
    */
    method UnregisterObserver(o: Observer) returns (found: bool)
      requires Valid()
      modifies this
      ensures Valid()
      ensures found == (o in old(observers))
      ensures observers == Remove(old(observers), o)
      ensures o !in observers
      ensures forall x :: x != o ==> (x in observers <==> x in old(observers))
      ensures buffer == old(buffer) && outQueue == old(outQueue) && notified == old(notified)
    {
      found := o in observers;
      RemoveDistinct(observers, o);
      observers := Remove(observers, o);
    }

    /** `_insert_parsed_frame`: tells every observer about the frame, in list order. */
    method InsertParsedFrame(frame: seq<uint8>)
      requires Valid()
      modifies this
      ensures Valid()
      ensures notified == old(notified) + Notifications(observers, frame)
      ensures observers == old(observers) && buffer == old(buffer) && outQueue == old(outQueue)
    {
      var i := 0;
      while i < |observers|
        invariant 0 <= i <= |observers|
        invariant notified == old(notified) + Notifications(observers[..i], frame)
        invariant observers == old(observers) && buffer == old(buffer) && outQueue == old(outQueue)
      {
        assert Notifications(observers[..i + 1], frame)
            == Notifications(observers[..i], frame) + [Notification(observers[i], frame)];
        notified := notified + [Notification(observers[i], frame)];
        i := i + 1;
      }
      assert observers[..i] == observers;
    }

    /**
      `write_uart_frame`: queues the frame as given when `sendRaw`, and otherwise framed with
      preamble and CRC.
    */
    method WriteUartFrame(uartFrame: seq<uint8>, sendRaw: bool)
      requires Valid()
      modifies this
      ensures Valid()
      ensures outQueue == old(outQueue) + [if sendRaw then uartFrame else WireFrame(uartFrame)]
      ensures observers == old(observers) && buffer == old(buffer) && notified == old(notified)
    {
      var frameToSend := if sendRaw then uartFrame else Preamble + uartFrame + CrcBytes(uartFrame);
      outQueue := outQueue + [frameToSend];
    }

    /**
      One pass of the `run` loop that received `chunk`: appends it to the buffer, extracts the
      frames, keeps what is left over, and announces each frame to every observer.
    */
    method ProcessChunk(chunk: seq<uint8>)
      requires Valid()
      modifies this
      ensures Valid()
      ensures buffer == ExtractFrames(old(buffer) + chunk).1
      ensures notified == old(notified) + NotifyAll(observers, ExtractFrames(old(buffer) + chunk).0)
      ensures observers == old(observers) && outQueue == old(outQueue)
    {
      buffer := buffer + chunk;
      var extracted := ExtractFrames(buffer);
      buffer := extracted.1;
      InsertParsedFrames(extracted.0);
    }

    /** The `for frame in frames` loop of `run`: each frame in turn to every observer. */
    method InsertParsedFrames(frames: seq<seq<uint8>>)
      requires Valid()
      modifies this
      ensures Valid()
      ensures notified == old(notified) + NotifyAll(observers, frames)
      ensures observers == old(observers) && buffer == old(buffer) && outQueue == old(outQueue)
    {
      var i := 0;
      while i < |frames|
        invariant 0 <= i <= |frames|
        invariant notified == old(notified) + NotifyAll(observers, frames[..i])
        invariant observers == old(observers) && buffer == old(buffer) && outQueue == old(outQueue)
      {
        NotifyAllAppend(observers, frames[..i], frames[i]);
        assert frames[..i + 1] == frames[..i] + [frames[i]];
        InsertParsedFrame(frames[i]);
        i := i + 1;
      }
      assert frames[..i] == frames;
    }
  }
}
