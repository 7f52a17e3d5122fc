/**
 * Messages, the frames they are cut into, and how a receiver finds the message boundaries again.
 */
module Messages {
  type Byte = b: int | 0 <= b < 0x100

  datatype Option<+T> = None | Some(value: T)

  /** What one data packet carries: a piece of a message, with the flags for its first and last piece. */
  datatype Frame = Frame(payload: seq<Byte>, first: bool, last: bool)

  /** The payload room of a frame: the MTU less the network and transport headers. It depends on the platform. */
  type PayloadSize = n: nat | 0 < n witness 3416

  const MAX_PAYLOAD: PayloadSize

  function Min(a: nat, b: nat): nat {
    if a <= b then a else b
  }

  function Total(pieces: seq<seq<Byte>>): nat {
    if pieces == [] then 0 else |pieces[0]| + Total(pieces[1..])
  }

  function Join(pieces: seq<seq<Byte>>): seq<Byte> {
    if pieces == [] then [] else pieces[0] + Join(pieces[1..])
  }

  /** Cut a message into full frames and one last, possibly shorter, frame. */
  function Chunks(msg: seq<Byte>): seq<seq<Byte>>
    decreases |msg|
  {
    if msg == [] then []
    else
      var n := Min(|msg|, MAX_PAYLOAD);
      [msg[..n]] + Chunks(msg[n..])
  }

  /**
   * The flags the sender puts on the pieces of a message of `len` bytes of which `remaining` are still to go:
   * a piece is first when nothing has gone before it and last when nothing remains after it.
   */
  function Flagged(pieces: seq<seq<Byte>>, len: nat, remaining: nat): seq<Frame>
    requires Total(pieces) <= remaining
  {
    if pieces == [] then []
    else
      var rest := remaining - |pieces[0]|;
      [Frame(pieces[0], remaining == len, rest == 0)] + Flagged(pieces[1..], len, rest)
  }

  /** The frames of one message. */
  function FramesOf(msg: seq<Byte>): seq<Frame> {
    ChunksJoin(msg);
    Flagged(Chunks(msg), |msg|, |msg|)
  }

  /** The frames of a sequence of messages, one message after the other. */
  function FramesOfAll(msgs: seq<seq<Byte>>): seq<Frame> {
    if msgs == [] then [] else FramesOf(msgs[0]) + FramesOfAll(msgs[1..])
  }

  /** How many frames to take up to and including the first one flagged last; zero if there is none. */
  function FirstMessage(frames: seq<Frame>): (n: nat)
    ensures n <= |frames|
    ensures n > 0 ==> frames[n - 1].last
    ensures forall i :: 0 <= i < n - 1 ==> !frames[i].last
    ensures n == 0 ==> forall i :: 0 <= i < |frames| ==> !frames[i].last
  {
    if frames == [] then 0
    else if frames[0].last then 1
    else
      var n := FirstMessage(frames[1..]);
      if n == 0 then 0 else n + 1
  }

  function Payloads(frames: seq<Frame>): seq<seq<Byte>> {
    seq(|frames|, i requires 0 <= i < |frames| => frames[i].payload)
  }

  /** The complete messages a receiver reads off a sequence of frames, using the last-frame flags only. */
  function Complete(frames: seq<Frame>): seq<seq<Byte>>
    decreases |frames|
  {
    var n := FirstMessage(frames);
    if n == 0 then [] else [Join(Payloads(frames[..n]))] + Complete(frames[n..])
  }

  /** The frames after the last complete message. */
  function Rest(frames: seq<Frame>): seq<Frame>
    decreases |frames|
  {
    var n := FirstMessage(frames);
    if n == 0 then frames else Rest(frames[n..])
  }

  lemma NextPlace(i: nat)
    ensures (i + 1) * MAX_PAYLOAD == i * MAX_PAYLOAD + MAX_PAYLOAD
  {
  }

  lemma FirstPiece(msg: seq<Byte>)
    ensures 0 < |Chunks(msg)| <==> 0 < |msg|
    ensures 0 < |Chunks(msg)| ==> Chunks(msg)[0] == msg[..Min(MAX_PAYLOAD, |msg|)]
  {
  }

  /** Piece `i` is the `i`-th stretch of the message of the size of a frame: all pieces but the last are full. */
  lemma {:induction false} PieceAt(msg: seq<Byte>, i: nat)
    ensures i < |Chunks(msg)| <==> i * MAX_PAYLOAD < |msg|
    ensures i < |Chunks(msg)| ==> Chunks(msg)[i] == msg[i * MAX_PAYLOAD..Min((i + 1) * MAX_PAYLOAD, |msg|)]
    decreases i
  {
    FirstPiece(msg);
    hide Chunks;
    NextPlace(i);
    if i > 0 && msg != [] {
      var n := Min(|msg|, MAX_PAYLOAD);
      NextPlace(i - 1);
      PieceAt(msg[n..], i - 1);
      PieceOfRest(msg, n, (i - 1) * MAX_PAYLOAD, i);
    } else {
      assert i * MAX_PAYLOAD >= 0 && (i == 0 ==> i * MAX_PAYLOAD == 0);
    }
  }

  lemma PieceOfRest(msg: seq<Byte>, n: nat, at: nat, i: nat)
    requires 0 < n == Min(|msg|, MAX_PAYLOAD)
    ensures |Chunks(msg)| == 1 + |Chunks(msg[n..])|
    ensures 0 < i <= |Chunks(msg[n..])| ==> Chunks(msg)[i] == Chunks(msg[n..])[i - 1]
    ensures at < |msg| - n ==>
      msg[n..][at..Min(at + MAX_PAYLOAD, |msg| - n)] == msg[n + at..Min(n + at + MAX_PAYLOAD, |msg|)]
  {
  }

  lemma {:induction false} ChunksJoin(msg: seq<Byte>)
    ensures Total(Chunks(msg)) == |msg|
    ensures Join(Chunks(msg)) == msg
    ensures forall i :: 0 <= i < |Chunks(msg)| ==> 0 < |Chunks(msg)[i]| <= MAX_PAYLOAD
    decreases |msg|
  {
    if msg != [] {
      var n := Min(|msg|, MAX_PAYLOAD);
      ChunksJoin(msg[n..]);
      var c := Chunks(msg);
      assert c[1..] == Chunks(msg[n..]);
      assert msg == msg[..n] + msg[n..];
      forall i | 0 <= i < |c|
        ensures 0 < |c[i]| <= MAX_PAYLOAD
      {
        if i > 0 {
          assert c[i] == Chunks(msg[n..])[i - 1];
        }
      }
    }
  }

  lemma {:induction false} TotalSplit(pieces: seq<seq<Byte>>, n: nat)
    requires n <= |pieces|
    ensures Total(pieces) == Total(pieces[..n]) + Total(pieces[n..])
    ensures Join(pieces) == Join(pieces[..n]) + Join(pieces[n..])
  {
    if n == 0 {
      assert pieces[..n] == [] && pieces[n..] == pieces;
    } else {
      TotalSplit(pieces[1..], n - 1);
      assert pieces[..n][1..] == pieces[1..][..n - 1];
      assert pieces[n..] == pieces[1..][n - 1..];
    }
  }

  lemma {:induction false} JoinLength(pieces: seq<seq<Byte>>)
    ensures |Join(pieces)| == Total(pieces)
  {
    if pieces != [] {
      JoinLength(pieces[1..]);
    }
  }

  lemma FlaggedFirst(pieces: seq<seq<Byte>>, len: nat, remaining: nat)
    requires pieces != [] && Total(pieces) <= remaining
    ensures |pieces[0]| <= remaining && Total(pieces[1..]) <= remaining - |pieces[0]|
    ensures Flagged(pieces, len, remaining)
         == [Frame(pieces[0], remaining == len, remaining == |pieces[0]|)] + Flagged(pieces[1..], len, remaining - |pieces[0]|)
  {
  }

  lemma NothingFlagged(len: nat, remaining: nat)
    ensures Total([]) == 0 && Flagged([], len, remaining) == []
  {
  }

  lemma TotalFirst(pieces: seq<seq<Byte>>, n: nat)
    requires 0 < n <= |pieces|
    ensures pieces[..n][1..] == pieces[1..][..n - 1] && pieces[n..] == pieces[1..][n - 1..]
    ensures Total(pieces[..n]) == |pieces[0]| + Total(pieces[1..][..n - 1])
  {
    assert pieces[..n][1..] == pieces[1..][..n - 1];
  }

  /** Cutting the flagging off at any piece and resuming it later gives the same frames. */
  lemma {:induction false} FlaggedSplit(pieces: seq<seq<Byte>>, len: nat, remaining: nat, n: nat)
    requires Total(pieces) <= remaining && n <= |pieces|
    ensures Total(pieces[..n]) <= remaining && Total(pieces[n..]) <= remaining - Total(pieces[..n])
    ensures Flagged(pieces, len, remaining)
         == Flagged(pieces[..n], len, remaining) + Flagged(pieces[n..], len, remaining - Total(pieces[..n]))
  {
    TotalSplit(pieces, n);
    NothingFlagged(len, remaining);
    hide Flagged, Total, Join;
    if n == 0 {
      assert pieces[..n] == [] && pieces[n..] == pieces;
    } else {
      FlaggedFirst(pieces, len, remaining);
      FlaggedFirst(pieces[..n], len, remaining);
      TotalFirst(pieces, n);
      var rest, f := remaining - |pieces[0]|, Frame(pieces[0], remaining == len, remaining == |pieces[0]|);
      FlaggedSplit(pieces[1..], len, rest, n - 1);
      var a, b := Flagged(pieces[1..][..n - 1], len, rest), Flagged(pieces[n..], len, remaining - Total(pieces[..n]));
      assert [f] + (a + b) == [f] + a + b;
    }
  }

  lemma {:induction false} FlaggedShape(pieces: seq<seq<Byte>>, len: nat, remaining: nat)
    requires Total(pieces) == remaining <= len
    requires forall i :: 0 <= i < |pieces| ==> |pieces[i]| > 0
    ensures |Flagged(pieces, len, remaining)| == |pieces|
    ensures Payloads(Flagged(pieces, len, remaining)) == pieces
    ensures forall i :: 0 <= i < |pieces| ==>
      var f := Flagged(pieces, len, remaining)[i];
      (f.last <==> i == |pieces| - 1) && (f.first <==> i == 0 && remaining == len)
  {
    if pieces != [] {
      var rest := remaining - |pieces[0]|;
      FlaggedShape(pieces[1..], len, rest);
      var fs, gs := Flagged(pieces, len, remaining), Flagged(pieces[1..], len, rest);
      assert pieces[1..] == [] <==> rest == 0 by {
        if pieces[1..] != [] {
          assert |pieces[1..][0]| > 0;
        }
      }
      forall i | 0 <= i < |pieces|
        ensures fs[i].payload == pieces[i]
        ensures (fs[i].last <==> i == |pieces| - 1) && (fs[i].first <==> i == 0 && remaining == len)
      {
        if i > 0 {
          assert fs[i] == gs[i - 1];
          assert Payloads(gs)[i - 1] == pieces[1..][i - 1];
        }
      }
      assert Payloads(fs) == pieces;
    }
  }

  /** A non-empty message has at least one frame, only its final frame is flagged last, and its bytes are all there. */
  lemma FramesOfShape(msg: seq<Byte>)
    requires msg != []
    ensures FramesOf(msg) != []
    ensures Join(Payloads(FramesOf(msg))) == msg
    ensures FirstMessage(FramesOf(msg)) == |FramesOf(msg)|
    ensures forall i :: 0 <= i < |FramesOf(msg)| ==> (FramesOf(msg)[i].first <==> i == 0)
  {
    ChunksJoin(msg);
    FlaggedShape(Chunks(msg), |msg|, |msg|);
    var fs := FramesOf(msg);
    assert fs[|fs| - 1].last;
  }

  lemma {:induction false} FramesOfAllAppend(msgs: seq<seq<Byte>>, msg: seq<Byte>)
    ensures FramesOfAll(msgs + [msg]) == FramesOfAll(msgs) + FramesOf(msg)
  {
    hide FramesOf;
    if msgs == [] {
      assert FramesOfAll([msg]) == FramesOf(msg) + FramesOfAll([]);
      assert msgs + [msg] == [msg];
    } else {
      FramesOfAllAppend(msgs[1..], msg);
      assert (msgs + [msg])[1..] == msgs[1..] + [msg];
      var a, b, c := FramesOf(msgs[0]), FramesOfAll(msgs[1..]), FramesOf(msg);
      assert a + (b + c) == a + b + c;
    }
  }

  lemma FirstMessageIs(frames: seq<Frame>, n: nat)
    requires 0 < n <= |frames| && frames[n - 1].last
    requires forall i :: 0 <= i < n - 1 ==> !frames[i].last
    ensures FirstMessage(frames) == n
  {
  }

  lemma NoMessage(frames: seq<Frame>)
    requires forall i :: 0 <= i < |frames| ==> !frames[i].last
    ensures FirstMessage(frames) == 0
  {
  }

  lemma FirstMessagePrefix(frames: seq<Frame>, k: nat)
    requires k <= |frames|
    ensures FirstMessage(frames[..k]) == if FirstMessage(frames) <= k then FirstMessage(frames) else 0
  {
    var n := FirstMessage(frames);
    if 0 < n <= k {
      FirstMessageIs(frames[..k], n);
    } else {
      NoMessage(frames[..k]);
    }
  }

  /** The messages read off a prefix are the first messages read off the whole. */
  lemma {:induction false} CompleteIsMonotone(frames: seq<Frame>, k: nat)
    requires k <= |frames|
    ensures Complete(frames[..k]) <= Complete(frames)
    decreases |frames|
  {
    hide Complete, Rest, Payloads, Join, FirstMessage;
    var n := FirstMessage(frames);
    FirstMessagePrefix(frames, k);
    if 0 < n <= k {
      ReadFirstMessage(frames, n);
      ReadFirstMessage(frames[..k], n);
      assert frames[..k][n..] == frames[n..][..k - n] && frames[..k][..n] == frames[..n];
      CompleteIsMonotone(frames[n..], k - n);
      SameFirst(Join(Payloads(frames[..n])), Complete(frames[n..][..k - n]), Complete(frames[n..]));
    } else {
      NothingComplete(frames[..k]);
    }
  }

  lemma SameFirst<T>(x: T, a: seq<T>, b: seq<T>)
    requires a <= b
    ensures [x] + a <= [x] + b
  {
  }

  lemma NothingComplete(frames: seq<Frame>)
    requires FirstMessage(frames) == 0
    ensures Complete(frames) == []
  {
  }

  lemma FirstMessageOfConcat(a: seq<Frame>, b: seq<Frame>)
    ensures FirstMessage(a) > 0 ==> FirstMessage(a + b) == FirstMessage(a)
    ensures FirstMessage(a) == 0 && FirstMessage(b) > 0 ==> FirstMessage(a + b) == |a| + FirstMessage(b)
    ensures FirstMessage(a) == 0 && FirstMessage(b) == 0 ==> FirstMessage(a + b) == 0
  {
    var n, m := FirstMessage(a), FirstMessage(b);
    if n > 0 {
      FirstMessageIs(a + b, n);
    } else if m > 0 {
      FirstMessageIs(a + b, |a| + m);
    } else {
      NoMessage(a + b);
    }
  }

  lemma {:induction false} RestIsIncomplete(frames: seq<Frame>)
    ensures FirstMessage(Rest(frames)) == 0
    decreases |frames|
  {
    var n := FirstMessage(frames);
    if n > 0 {
      RestIsIncomplete(frames[n..]);
    }
  }

  lemma ReadFirstMessage(frames: seq<Frame>, n: nat)
    requires n == FirstMessage(frames) > 0
    ensures Complete(frames) == [Join(Payloads(frames[..n]))] + Complete(frames[n..])
    ensures Rest(frames) == Rest(frames[n..])
  {
  }

  /** One more frame either completes exactly one message, made of the incomplete tail and it, or joins the tail. */
  lemma {:induction false} ReadOneMore(a: seq<Frame>, f: Frame)
    ensures f.last ==> Complete(a + [f]) == Complete(a) + [Join(Payloads(Rest(a) + [f]))] && Rest(a + [f]) == []
    ensures !f.last ==> Complete(a + [f]) == Complete(a) && Rest(a + [f]) == Rest(a) + [f]
    decreases |a|
  {
    var n, s := FirstMessage(a), a + [f];
    FirstMessageOfConcat(a, [f]);
    if n > 0 {
      ReadFirstMessage(a, n);
      ReadFirstMessage(s, n);
      ReadOneMore(a[n..], f);
      assert s[n..] == a[n..] + [f] && s[..n] == a[..n];
    } else if f.last {
      ReadFirstMessage(s, |s|);
      assert s[..|s|] == s && s[|s|..] == [];
    }
  }

  lemma ReadNoMessage(frames: seq<Frame>)
    requires FirstMessage(frames) == 0
    ensures Complete(frames) == [] && Rest(frames) == frames
  {
  }

  /** One whole message after complete ones adds exactly that message. */
  lemma {:induction false} ReadOneMessage(a: seq<Frame>, msg: seq<Frame>)
    requires Rest(a) == [] && FirstMessage(msg) == |msg| > 0
    ensures Complete(a + msg) == Complete(a) + [Join(Payloads(msg))] && Rest(a + msg) == []
    decreases |a|
  {
    hide Complete, Rest, FirstMessage, Join, Payloads;
    var n, s := FirstMessage(a), a + msg;
    FirstMessageOfConcat(a, msg);
    if n > 0 {
      ReadFirstMessage(a, n);
      ReadFirstMessage(s, n);
      ReadOneMessage(a[n..], msg);
      assert s[n..] == a[n..] + msg && s[..n] == a[..n];
    } else {
      ReadNoMessage(a);
      assert s == msg;
      ReadFirstMessage(s, |s|);
      assert s[..|s|] == s && s[|s|..] == [];
      NoMessage([]);
      ReadNoMessage([]);
    }
  }

  /** Reassembly undoes segmentation: from the frames of any non-empty messages exactly those messages are read. */
  lemma {:induction false} ReassemblyUndoesSegmentation(msgs: seq<seq<Byte>>)
    requires forall i :: 0 <= i < |msgs| ==> msgs[i] != []
    ensures Complete(FramesOfAll(msgs)) == msgs
    ensures Rest(FramesOfAll(msgs)) == []
  {
    hide FramesOf, FirstMessage;
    if msgs != [] {
      ReassemblyUndoesSegmentation(msgs[1..]);
      var a, b := FramesOf(msgs[0]), FramesOfAll(msgs[1..]);
      FramesOfShape(msgs[0]);
      FirstMessageOfConcat(a, b);
      ReadFirstMessage(a + b, |a|);
      assert (a + b)[..|a|] == a && (a + b)[|a|..] == b;
    }
  }
}
