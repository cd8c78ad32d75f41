/** Logs of frames, and what they say about one stream. */
module Logs {
  import opened Frames

  /** The frames of a log that carry a stream ID. */
  function FramesOf(log: seq<Frame>, id: U32): seq<Frame> {
    if log == [] then [] else
      var front, f := log[..|log| - 1], log[|log| - 1];
      var fs := FramesOf(front, id);
      if f.id == id then fs + [f] else fs
  }

  /** The payloads of the PSH frames of a list, one after the other. */
  function DataOf(fs: seq<Frame>): Bytes {
    if fs == [] then [] else
      var front, f := fs[..|fs| - 1], fs[|fs| - 1];
      if f.cmd.Psh? then DataOf(front) + f.data else DataOf(front)
  }

  /** A FIN for the stream at or after position `start`. */
  predicate Ended(log: seq<Frame>, start: nat, id: U32) {
    |log| > start &&
    var front, f := log[..|log| - 1], log[|log| - 1];
    Ended(front, start, id) || (f.id == id && f.cmd.Fin?)
  }

  /** The payloads for the stream from position `start` up to the next FIN. */
  function Delivered(log: seq<Frame>, start: nat, id: U32): Bytes {
    if |log| <= start then [] else
      var front, f := log[..|log| - 1], log[|log| - 1];
      var d := Delivered(front, start, id);
      if f.id == id && f.cmd.Psh? && !Ended(front, start, id) then d + f.data else d
  }

  /** The IDs of the SYN frames of a log, in order. */
  function Syns(log: seq<Frame>): seq<U32> {
    if log == [] then [] else
      var front, f := log[..|log| - 1], log[|log| - 1];
      if f.cmd.Syn? then Syns(front) + [f.id] else Syns(front)
  }

  lemma FramesOfSnoc(log: seq<Frame>, f: Frame, id: U32)
    ensures FramesOf(log + [f], id) == if f.id == id then FramesOf(log, id) + [f] else FramesOf(log, id)
  {
    assert (log + [f])[..|log|] == log;
  }

  lemma DataOfSnoc(fs: seq<Frame>, f: Frame)
    ensures DataOf(fs + [f]) == if f.cmd.Psh? then DataOf(fs) + f.data else DataOf(fs)
  {
    assert (fs + [f])[..|fs|] == fs;
  }

  lemma SynsSnoc(log: seq<Frame>, f: Frame)
    ensures Syns(log + [f]) == if f.cmd.Syn? then Syns(log) + [f.id] else Syns(log)
  {
    assert (log + [f])[..|log|] == log;
  }

  lemma DeliveredSnoc(log: seq<Frame>, f: Frame, start: nat, id: U32)
    requires start <= |log|
    ensures Ended(log + [f], start, id) <==> Ended(log, start, id) || (f.id == id && f.cmd.Fin?)
    ensures Delivered(log + [f], start, id) ==
      if f.id == id && f.cmd.Psh? && !Ended(log, start, id)
      then Delivered(log, start, id) + f.data else Delivered(log, start, id)
  {
    assert (log + [f])[..|log|] == log;
  }

  lemma {:induction false} FramesOfAppend(a: seq<Frame>, b: seq<Frame>, id: U32)
    ensures FramesOf(a + b, id) == FramesOf(a, id) + FramesOf(b, id)
  {
    if b == [] {
      assert a + b == a;
    } else {
      var front, f := b[..|b| - 1], b[|b| - 1];
      FramesOfAppend(a, front, id);
      assert a + b == (a + front) + [f];
      FramesOfSnoc(a + front, f, id);
    }
  }

  lemma Regrouped(x: Bytes, y: Bytes, z: Bytes)
    ensures x + y + z == x + (y + z)
  {
  }

  lemma {:induction false} DataOfAppend(a: seq<Frame>, b: seq<Frame>)
    ensures DataOf(a + b) == DataOf(a) + DataOf(b)
  {
    if b == [] {
      assert a + b == a;
    } else {
      var front, f := b[..|b| - 1], b[|b| - 1];
      DataOfAppend(a, front);
      assert b == front + [f] && a + b == (a + front) + [f];
      DataOfSnoc(a + front, f);
      DataOfSnoc(front, f);
      Regrouped(DataOf(a), DataOf(front), f.data);
    }
  }

  lemma {:induction false} SynsAppend(a: seq<Frame>, b: seq<Frame>)
    ensures Syns(a + b) == Syns(a) + Syns(b)
  {
    if b == [] {
      assert a + b == a;
    } else {
      var front, f := b[..|b| - 1], b[|b| - 1];
      SynsAppend(a, front);
      assert b == front + [f] && a + b == (a + front) + [f];
      SynsSnoc(a + front, f);
      SynsSnoc(front, f);
      assert Syns(a) + Syns(front) + [f.id] == Syns(a) + (Syns(front) + [f.id]);
    }
  }

  /** A log without frames of a stream has none; a log with one has it in the filtered list. */
  lemma {:induction false} FramesOfNone(log: seq<Frame>, id: U32)
    ensures FramesOf(log, id) == [] <==> forall i :: 0 <= i < |log| ==> log[i].id != id
  {
    if log != [] {
      FramesOfNone(log[..|log| - 1], id);
    }
  }

  // ----- the frame grammar of one stream -------------------------------------

  /** Fresh: the SYN is still to come. Live: PSH frames may follow. Finished: the FIN is out. */
  datatype Phase = Fresh | Live | Finished | Bad

  function Next(p: Phase, f: Frame): Phase {
    if p.Fresh? && f.cmd.Syn? then Live
    else if p.Live? && f.cmd.Psh? then Live
    else if p.Live? && f.cmd.Fin? then Finished
    else Bad
  }

  function PhaseOf(first: Phase, fs: seq<Frame>): Phase {
    if fs == [] then first else Next(PhaseOf(first, fs[..|fs| - 1]), fs[|fs| - 1])
  }

  lemma PhaseSnoc(first: Phase, fs: seq<Frame>, f: Frame)
    ensures PhaseOf(first, fs + [f]) == Next(PhaseOf(first, fs), f)
  {
    assert (fs + [f])[..|fs|] == fs;
  }

  /** Nothing follows a FIN, nothing precedes a SYN, and a good list has good beginnings. */
  lemma {:induction false} PhasePrefix(first: Phase, a: seq<Frame>, b: seq<Frame>)
    requires !PhaseOf(first, a + b).Bad?
    ensures !PhaseOf(first, a).Bad?
    ensures PhaseOf(first, a).Finished? ==> b == []
  {
    if b == [] {
      assert a + b == a;
    } else {
      var front, f := b[..|b| - 1], b[|b| - 1];
      assert a + b == (a + front) + [f];
      PhaseSnoc(first, a + front, f);
      PhasePrefix(first, a, front);
      assert front == [] ==> a + front == a;
    }
  }

  /** SYN PSH* FIN? for the side that opens a stream, PSH* FIN? for the side that accepts it. */
  predicate InGrammar(opener: bool, fs: seq<Frame>) {
    forall i :: 0 <= i < |fs| ==>
      if opener && i == 0 then fs[i].cmd.Syn?
      else fs[i].cmd.Psh? || (i == |fs| - 1 && fs[i].cmd.Fin?)
  }

  function FirstPhase(opener: bool): Phase {
    if opener then Fresh else Live
  }

  /** The automaton accepts exactly the lists of the grammar, and has finished exactly after a FIN. */
  lemma {:induction false} PhaseIsGrammar(opener: bool, fs: seq<Frame>)
    ensures !PhaseOf(FirstPhase(opener), fs).Bad? <==> InGrammar(opener, fs)
    ensures InGrammar(opener, fs) ==>
      && (PhaseOf(FirstPhase(opener), fs).Finished? <==> fs != [] && fs[|fs| - 1].cmd.Fin?)
      && (PhaseOf(FirstPhase(opener), fs).Fresh? <==> opener && fs == [])
  {
    if fs != [] {
      var front, f := fs[..|fs| - 1], fs[|fs| - 1];
      PhaseIsGrammar(opener, front);
      assert PhaseOf(FirstPhase(opener), fs) == Next(PhaseOf(FirstPhase(opener), front), f);
      if InGrammar(opener, fs) {
        forall i | 0 <= i < |front|
          ensures if opener && i == 0 then front[i].cmd.Syn?
            else front[i].cmd.Psh? || (i == |front| - 1 && front[i].cmd.Fin?)
        {
          assert front[i] == fs[i];
        }
        if front != [] {
          assert fs[|front| - 1] == front[|front| - 1];
        }
      } else if InGrammar(opener, front) && !PhaseOf(FirstPhase(opener), fs).Bad? {
        forall i | 0 <= i < |fs|
          ensures if opener && i == 0 then fs[i].cmd.Syn? else fs[i].cmd.Psh? || (i == |fs| - 1 && fs[i].cmd.Fin?)
        {
          if i < |front| {
            assert front[i] == fs[i];
          }
        }
      }
    }
  }

  // ----- a whole log read through the grammar ----------------------------------

  lemma DeliveredStep(opener: bool, front: seq<Frame>, f: Frame, start: nat, id: U32)
    requires start <= |front|
    requires !PhaseOf(FirstPhase(opener), FramesOf(front + [f], id)).Bad?
    requires Delivered(front, start, id) == DataOf(FramesOf(front, id))
    requires Ended(front, start, id) <==> PhaseOf(FirstPhase(opener), FramesOf(front, id)).Finished?
    ensures Delivered(front + [f], start, id) == DataOf(FramesOf(front + [f], id))
    ensures Ended(front + [f], start, id) <==> PhaseOf(FirstPhase(opener), FramesOf(front + [f], id)).Finished?
  {
    FramesOfSnoc(front, f, id);
    DeliveredSnoc(front, f, start, id);
    if f.id == id {
      DataOfSnoc(FramesOf(front, id), f);
      PhaseSnoc(FirstPhase(opener), FramesOf(front, id), f);
    }
  }

  lemma {:induction false} DeliveredAfter(opener: bool, head: seq<Frame>, tail: seq<Frame>, id: U32)
    requires !PhaseOf(FirstPhase(opener), FramesOf(head + tail, id)).Bad?
    requires DataOf(FramesOf(head, id)) == [] && !PhaseOf(FirstPhase(opener), FramesOf(head, id)).Finished?
    ensures Delivered(head + tail, |head|, id) == DataOf(FramesOf(head + tail, id))
    ensures Ended(head + tail, |head|, id) <==> PhaseOf(FirstPhase(opener), FramesOf(head + tail, id)).Finished?
  {
    if tail == [] {
      assert head + tail == head;
    } else {
      var front, f := tail[..|tail| - 1], tail[|tail| - 1];
      assert head + tail == (head + front) + [f];
      GoodFront(opener, head + front, f, id);
      DeliveredAfter(opener, head, front, id);
      DeliveredStep(opener, head + front, f, |head|, id);
    }
  }

  lemma GoodFront(opener: bool, front: seq<Frame>, f: Frame, id: U32)
    requires !PhaseOf(FirstPhase(opener), FramesOf(front + [f], id)).Bad?
    ensures !PhaseOf(FirstPhase(opener), FramesOf(front, id)).Bad?
  {
    FramesOfSnoc(front, f, id);
    PhaseSnoc(FirstPhase(opener), FramesOf(front, id), f);
  }

  /** If a stream's frames follow the grammar and none but its SYN comes before `start`, what is
      delivered from `start` on is everything, and a FIN after `start` is its last frame. */
  lemma DeliveredIsAll(opener: bool, log: seq<Frame>, start: nat, id: U32)
    requires start <= |log|
    requires !PhaseOf(FirstPhase(opener), FramesOf(log, id)).Bad?
    requires DataOf(FramesOf(log[..start], id)) == []
    requires !PhaseOf(FirstPhase(opener), FramesOf(log[..start], id)).Finished?
    ensures Delivered(log, start, id) == DataOf(FramesOf(log, id))
    ensures Ended(log, start, id) <==> PhaseOf(FirstPhase(opener), FramesOf(log, id)).Finished?
  {
    assert log == log[..start] + log[start..];
    DeliveredAfter(opener, log[..start], log[start..], id);
  }
}
