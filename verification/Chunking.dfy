/**
  When the host's stream reader depends on how the port cuts the stream into reads. It empties its buffer when that
  outgrows 256 bytes without a delimiter, so what matters is whether the bytes behind such a cut decode by themselves.
 */
module Chunking {
  import opened Bytes
  import opened Cobs
  import opened Protocol
  import opened SerialTransport
  import Framing

  // ----- Parsing in pieces -----

  lemma {:induction false} TailIsSuffix(s: seq<byte>)
    ensures |Tail(s)| <= |s| && Tail(s) == s[|s| - |Tail(s)|..] && ZeroFree(Tail(s))
    ensures |Tail(s)| < |s| ==> s[|s| - |Tail(s)| - 1] == 0
    decreases |s|
  {
    var d := FirstZero(s);
    if d < |s| {
      TailIsSuffix(s[d + 1..]);
    } else {
      assert s[..d] == s;
    }
  }

  lemma {:induction false} ParsedConcat(s: seq<byte>, t: seq<byte>)
    ensures Parsed(s + t) == Parsed(s) + Parsed(Tail(s) + t)
    decreases |s|
  {
    hide PacketsIn, FirstZero, ZeroFree, Parsed, Tail;
    var d := FirstZero(s);
    ParsedOnce(s);
    TailOnce(s);
    if d < |s| {
      FirstZeroConcat(s, t);
      assert (s + t)[..d] == s[..d] && (s + t)[d + 1..] == s[d + 1..] + t;
      ParsedOnce(s + t);
      ParsedConcat(s[d + 1..], t);
      JoinLeft(PacketsIn(s[..d]), Parsed(s[d + 1..]), Parsed(Tail(s) + t));
    } else {
      NothingBefore(Parsed(s + t));
    }
  }

  lemma JoinLeft<T>(a: seq<T>, b: seq<T>, c: seq<T>)
    ensures a + (b + c) == (a + b) + c
  {}

  lemma {:induction false} TailConcat(s: seq<byte>, t: seq<byte>)
    ensures Tail(s + t) == Tail(Tail(s) + t)
    decreases |s|
  {
    hide FirstZero;
    var d := FirstZero(s);
    if d < |s| {
      FirstZeroConcat(s, t);
      TailConcat(s[d + 1..], t);
      assert (s + t)[d + 1..] == s[d + 1..] + t;
    }
  }

  lemma {:induction false} FirstZeroConcat(s: seq<byte>, t: seq<byte>)
    requires FirstZero(s) < |s|
    ensures FirstZero(s + t) == FirstZero(s)
    decreases |s|
  {
    if s[0] != 0 {
      assert (s + t)[1..] == s[1..] + t;
      FirstZeroConcat(s[1..], t);
    }
  }

  lemma {:induction false} FirstZeroAt(s: seq<byte>, k: nat)
    requires k < |s| && s[k] == 0 && ZeroFree(s[..k])
    ensures FirstZero(s) == k
    decreases k
  {
    if k > 0 {
      assert s[0] == s[..k][0];
      assert s[1..][..k - 1] == s[..k][1..];
      FirstZeroAt(s[1..], k - 1);
    }
  }

  lemma Unbroken(s: seq<byte>)
    requires ZeroFree(s)
    ensures Parsed(s) == [] && Tail(s) == s
  {}

  lemma OneSegment(f: seq<byte>)
    requires ZeroFree(f)
    ensures Parsed(f + [0]) == PacketsIn(f) && Tail(f + [0]) == []
  {
    hide PacketsIn;
    var s := f + [0];
    assert s[..|f|] == f && s[|f| + 1..] == [];
    FirstZeroAt(s, |f|);
    assert PacketsIn(f) + [] == PacketsIn(f);
  }

  /** A frame longer than any packet's is rejected. */
  lemma LongFrameRejected(f: seq<byte>)
    requires ZeroFree(f) && |f| > MAX_FRAME_SIZE
    ensures PacketsIn(f) == []
  {
    if DecodeFrame(f).Accepted? {
      var p := DecodeFrame(f).packet;
      hide DecodeFrame;
      FrameCanonical(f, p);
      FrameLength(p);
    }
  }

  // ----- Where the reader can cut -----

  /** Reads of at most 128 bytes overflow the limit of 256 by 1 to 128 bytes each time. */
  const LEAST_CUT := RX_LIMIT + 1
  const GREATEST_CUT := RX_LIMIT + READ_SIZE

  /** Some number of overflows can discard exactly this many bytes of an unbroken run. */
  ghost predicate CanDiscard(bytes: nat) {
    exists cuts: nat :: CutsDiscard(cuts, bytes)
  }

  predicate CutsDiscard(cuts: nat, bytes: nat) { cuts * LEAST_CUT <= bytes <= cuts * GREATEST_CUT }

  predicate StartsSegment(s: seq<byte>, i: nat)
    requires i <= |s|
  {
    i == 0 || s[i - 1] == 0
  }

  /** The stream has a frame that is only received if the reader discards the bytes before it in its segment. */
  ghost predicate HidesAt(s: seq<byte>, i: nat, k: nat, j: nat) {
    && i < k < j < |s| && StartsSegment(s, i) && s[j] == 0 && ZeroFree(s[i..j])
    && PacketsIn(s[k..j]) != [] && CanDiscard(k - i)
  }

  ghost predicate Hides(s: seq<byte>) { exists i: nat, k: nat, j: nat :: HidesAt(s, i, k, j) }

  lemma HidesLater(s: seq<byte>, from: nat)
    requires from <= |s| && StartsSegment(s, from) && Hides(s[from..])
    ensures Hides(s)
  {
    hide PacketsIn, CanDiscard;
    var i: nat, k: nat, j: nat :| HidesAt(s[from..], i, k, j);
    assert s[from..][i..j] == s[from + i..from + j] && s[from..][k..j] == s[from + k..from + j];
    assert HidesAt(s, from + i, from + k, from + j);
  }

  // ----- Without hidden frames every cut gives the same packets -----

  /** Bytes of the current segment that the reader has discarded. */
  ghost predicate Discarded(lost: seq<byte>) { ZeroFree(lost) && CanDiscard(|lost|) }

  lemma DiscardedIsLong(lost: seq<byte>)
    requires Discarded(lost) && lost != []
    ensures |lost| > MAX_FRAME_SIZE && ZeroFree(lost)
  {
    var cuts: nat :| CutsDiscard(cuts, |lost|);
    assert cuts >= 1;
  }

  lemma NothingDiscarded()
    ensures Discarded([])
  {
    assert CutsDiscard(0, 0);
  }

  lemma DiscardMore(lost: seq<byte>, more: seq<byte>)
    requires Discarded(lost) && ZeroFree(more) && LEAST_CUT <= |more| <= GREATEST_CUT
    ensures Discarded(lost + more)
  {
    var cuts: nat :| CutsDiscard(cuts, |lost|);
    assert CutsDiscard(cuts + 1, |lost + more|);
  }

  /** What the reader discarded and what is in its buffer, as one stream. */
  lemma ParsedAfterLoss(lost: seq<byte>, rx: seq<byte>, rest: seq<byte>)
    requires Discarded(lost)
    ensures |Parsed(lost + rx)| <= |Parsed(rx)|
    ensures !Hides(lost + rx + rest) ==> Parsed(lost + rx) == Parsed(rx)
    ensures Tail(lost + rx) == if FirstZero(rx) < |rx| then Tail(rx) else lost + rx
  {
    hide Hides, Discarded, PacketsIn;
    if lost == [] {
      assert lost + rx == rx;
    } else if FirstZero(rx) == |rx| {
      assert rx[..FirstZero(rx)] == rx;
      DiscardedIsLong(lost);
      Unbroken(rx);
      Unbroken(lost + rx);
    } else {
      hide Parsed, Tail;
      DelimitedAfterLoss(lost, rx);
      if PacketsIn(rx[..FirstZero(rx)]) != [] {
        HidesAfterLoss(lost, rx, rest);
      }
    }
  }

  lemma FirstSegment(s: seq<byte>)
    ensures
      var d := FirstZero(s);
      if d == |s| then Parsed(s) == [] && Tail(s) == s
      else Parsed(s) == PacketsIn(s[..d]) + Parsed(s[d + 1..]) && Tail(s) == Tail(s[d + 1..])
  {
    hide PacketsIn, FirstZero, Parsed, Tail;
    ParsedOnce(s);
    TailOnce(s);
  }

  lemma ParsedOnce(s: seq<byte>)
    ensures
      var d := FirstZero(s);
      Parsed(s) == if d == |s| then [] else PacketsIn(s[..d]) + Parsed(s[d + 1..])
  {
    hide PacketsIn, FirstZero, ZeroFree;
  }

  lemma TailOnce(s: seq<byte>)
    ensures
      var d := FirstZero(s);
      Tail(s) == if d == |s| then s else Tail(s[d + 1..])
  {
    hide FirstZero, ZeroFree;
  }

  lemma Parts<T>(a: seq<T>, b: seq<T>, c: seq<T>, d: nat)
    requires d < |b|
    ensures
      var s := a + b + c;
      s[0..|a| + d] == a + b[..d] && s[|a|..|a| + d] == b[..d] && s[|a| + d] == b[d]
  {}

  lemma Split<T>(a: seq<T>, b: seq<T>, d: nat)
    requires d < |b|
    ensures (a + b)[..|a| + d] == a + b[..d] && (a + b)[|a| + d] == b[d] && (a + b)[|a| + d + 1..] == b[d + 1..]
  {}

  lemma ZeroFreeJoin(s: seq<byte>, t: seq<byte>)
    requires ZeroFree(s) && ZeroFree(t)
    ensures ZeroFree(s + t)
  {}

  lemma DelimitedAfterLoss(lost: seq<byte>, rx: seq<byte>)
    requires Discarded(lost) && lost != [] && FirstZero(rx) < |rx|
    ensures Parsed(rx) == PacketsIn(rx[..FirstZero(rx)]) + Parsed(lost + rx) && Tail(lost + rx) == Tail(rx)
  {
    DiscardedIsLong(lost);
    hide PacketsIn, ZeroFree, FirstZero, Parsed, Tail;
    var d, s := FirstZero(rx), lost + rx;
    ZeroFreeJoin(lost, rx[..d]);
    Split(lost, rx, d);
    FirstZeroAt(s, |lost| + d);
    LongFrameRejected(lost + rx[..d]);
    FirstSegment(rx);
    EmptySegment(s, rx[d + 1..]);
  }

  lemma EmptySegment(s: seq<byte>, rest: seq<byte>)
    requires FirstZero(s) < |s| && PacketsIn(s[..FirstZero(s)]) == [] && s[FirstZero(s) + 1..] == rest
    ensures Parsed(s) == Parsed(rest) && Tail(s) == Tail(rest)
  {
    hide PacketsIn, FirstZero;
    NothingBefore(Parsed(rest));
  }

  lemma NothingBefore<T>(s: seq<T>)
    ensures [] + s == s && s + [] == s
  {}

  lemma HidesAfterLoss(lost: seq<byte>, rx: seq<byte>, rest: seq<byte>)
    requires Discarded(lost) && lost != [] && FirstZero(rx) < |rx| && PacketsIn(rx[..FirstZero(rx)]) != []
    ensures Hides(lost + rx + rest)
  {
    var d := FirstZero(rx);
    assert d > 0;
    hide PacketsIn, CanDiscard, ZeroFree, FirstZero;
    ZeroFreeJoin(lost, rx[..d]);
    Parts(lost, rx, rest, d);
    assert HidesAt(lost + rx + rest, 0, |lost|, |lost| + d);
  }

  /** One more read: what is discarded and what is buffered then. */
  lemma NextRead(lost: seq<byte>, rx: seq<byte>, chunks: seq<Read>) returns (lost': seq<byte>, rx': seq<byte>)
    requires Discarded(lost) && |rx| <= GREATEST_CUT && chunks != []
    ensures Discarded(lost') && |rx'| <= GREATEST_CUT && rx' == Kept(Tail(rx)) + chunks[0]
    ensures lost' + rx' + Flat(chunks[1..]) == Tail(lost + rx) + Flat(chunks)
  {
    hide Discarded, Parsed, PacketsIn, Tail, ZeroFree, FirstZero;
    var kept, tail := if FirstZero(rx) < |rx| then [] else lost, Tail(rx);
    ParsedAfterLoss(lost, rx, []);
    FirstSegment(rx);
    TailIsSuffix(rx);
    NothingDiscarded();
    NothingBefore(tail);
    var chunk, rest := chunks[0], Flat(chunks[1..]);
    JoinLeft(kept + tail, chunk, rest);
    if |tail| > RX_LIMIT {
      DiscardMore(kept, tail);
      NothingBefore(chunk);
      lost', rx' := kept + tail, [] + chunk;
    } else {
      JoinLeft(kept, tail, chunk);
      lost', rx' := kept, tail + chunk;
    }
  }

  lemma RestAfterTail(s: seq<byte>, rest: seq<byte>)
    ensures Parsed(s + rest) == Parsed(s) + Parsed(Tail(s) + rest)
    ensures Hides(Tail(s) + rest) ==> Hides(s + rest)
  {
    hide Parsed, Tail, Hides, ZeroFree;
    ParsedConcat(s, rest);
    TailIsSuffix(s);
    var from := |s| - |Tail(s)|;
    assert (s + rest)[from..] == Tail(s) + rest;
    if Hides(Tail(s) + rest) {
      assert from > 0 ==> (s + rest)[from - 1] == s[from - 1];
      HidesLater(s + rest, from);
    }
  }

  /** The reader goes on from any buffer it can have, with any part of the segment discarded before. */
  lemma {:induction false} ReadsGiveParsed(lost: seq<byte>, rx: seq<byte>, chunks: seq<Read>)
    requires Discarded(lost) && |rx| <= GREATEST_CUT
    ensures |Delivered(rx, chunks)| >= |Parsed(lost + rx + Flat(chunks))|
    ensures !Hides(lost + rx + Flat(chunks)) ==> Delivered(rx, chunks) == Parsed(lost + rx + Flat(chunks))
    decreases |chunks|
  {
    hide Discarded, Hides, Parsed, Tail, Flat, Kept;
    var rest := Flat(chunks);
    ParsedAfterLoss(lost, rx, rest);
    if chunks == [] {
      FlatNothing();
      NothingBefore(lost + rx);
      NothingBefore(Parsed(rx));
    } else {
      var lost', rx' := NextRead(lost, rx, chunks);
      ReadsGiveParsed(lost', rx', chunks[1..]);
      RestAfterTail(lost + rx, rest);
    }
  }

  // ----- A hidden frame is received under some cut -----

  /** What is received after `tail` was kept, and what is kept then. */
  function Received(tail: seq<byte>, chunks: seq<seq<byte>>): seq<Packet>
    decreases |chunks|
  {
    if chunks == [] then []
    else Parsed(tail + chunks[0]) + Received(Kept(Tail(tail + chunks[0])), chunks[1..])
  }

  function Remaining(tail: seq<byte>, chunks: seq<seq<byte>>): seq<byte>
    decreases |chunks|
  {
    if chunks == [] then tail else Remaining(Kept(Tail(tail + chunks[0])), chunks[1..])
  }

  lemma {:induction false} DeliveredIsReceived(rx: seq<byte>, chunks: seq<seq<byte>>)
    ensures Delivered(rx, chunks) == Parsed(rx) + Received(Kept(Tail(rx)), chunks)
    decreases |chunks|
  {
    hide Parsed, Tail, Kept;
    if chunks != [] {
      DeliveredIsReceived(Kept(Tail(rx)) + chunks[0], chunks[1..]);
    }
  }

  lemma FreshIsReceived(chunks: seq<seq<byte>>)
    ensures Delivered([], chunks) == Received([], chunks)
  {
    Unbroken([]);
    hide Parsed, Tail;
    DeliveredIsReceived([], chunks);
    NothingBefore(Received([], chunks));
  }

  lemma {:induction false} ReceivedConcat(tail: seq<byte>, s: seq<seq<byte>>, t: seq<seq<byte>>)
    ensures Received(tail, s + t) == Received(tail, s) + Received(Remaining(tail, s), t)
    ensures Remaining(tail, s + t) == Remaining(Remaining(tail, s), t)
    decreases |s|
  {
    hide Parsed, Tail, Kept;
    if s == [] {
      NothingBefore(t);
      NothingBefore(Received(tail, t));
    } else {
      assert (s + t)[0] == s[0] && (s + t)[1..] == s[1..] + t;
      ReceivedConcat(Kept(Tail(tail + s[0])), s[1..], t);
    }
  }

  function Pieces(s: seq<byte>): seq<Read>
    decreases |s|
  {
    if |s| <= READ_SIZE then [s] else [s[..READ_SIZE]] + Pieces(s[READ_SIZE..])
  }

  lemma {:induction false} PiecesJoin(s: seq<byte>)
    ensures Flat(Pieces(s)) == s
    decreases |s|
  {
    if |s| > READ_SIZE {
      PiecesJoin(s[READ_SIZE..]);
      assert s == s[..READ_SIZE] + s[READ_SIZE..];
    } else {
      NothingBefore(s);
    }
  }

  lemma NothingAfterDelimiter(s: seq<byte>)
    requires s != [] && s[|s| - 1] == 0
    ensures Tail(s) == []
  {
    hide Tail;
    TailIsSuffix(s);
    if Tail(s) != [] {
      assert false;
    }
  }

  lemma {:induction false} PiecesLeaveNothing(tail: seq<byte>, s: seq<byte>)
    requires s != [] && s[|s| - 1] == 0
    ensures Remaining(tail, Pieces(s)) == []
    decreases |s|
  {
    hide Tail, Parsed;
    if |s| <= READ_SIZE {
      NothingAfterDelimiter(tail + s);
    } else {
      PiecesLeaveNothing(Kept(Tail(tail + s[..READ_SIZE])), s[READ_SIZE..]);
    }
  }

  /** What pieces of the stream up to a segment, or of the whole of it, give at least. */
  lemma PiecesGive(s: seq<byte>)
    ensures |Received([], Pieces(s))| >= |Parsed(s)|
    ensures s == [] || s[|s| - 1] == 0 ==> Remaining([], Pieces(s)) == []
  {
    hide Parsed, Received, Discarded;
    NothingDiscarded();
    PiecesJoin(s);
    ReadsGiveParsed([], [], Pieces(s));
    FreshIsReceived(Pieces(s));
    NothingBefore(s);
    if s == [] {
      Unbroken([]);
      hide Tail;
    } else if s[|s| - 1] == 0 {
      PiecesLeaveNothing([], s);
    }
  }

  /** Reads that make the reader discard a whole run. */
  function Discarding(run: seq<byte>, cuts: nat): seq<Read>
    requires CutsDiscard(cuts, |run|)
  {
    if cuts == 0 then []
    else
      var first := FirstCut(|run|, cuts);
      [run[..128], run[128..256], run[256..first]] + Discarding(run[first..], cuts - 1)
  }

  function FirstCut(bytes: nat, cuts: nat): (first: nat)
    requires cuts > 0 && CutsDiscard(cuts, bytes)
    ensures LEAST_CUT <= first <= GREATEST_CUT && first <= bytes && CutsDiscard(cuts - 1, bytes - first)
  {
    if bytes - (cuts - 1) * GREATEST_CUT < LEAST_CUT then LEAST_CUT else bytes - (cuts - 1) * GREATEST_CUT
  }

  lemma {:induction false} DiscardingWorks(run: seq<byte>, cuts: nat)
    requires CutsDiscard(cuts, |run|) && ZeroFree(run)
    ensures Flat(Discarding(run, cuts)) == run
    ensures Received([], Discarding(run, cuts)) == [] && Remaining([], Discarding(run, cuts)) == []
    decreases cuts
  {
    hide Parsed, Tail, CutsDiscard, FirstCut;
    if cuts == 0 {
      NoCuts(run);
    } else {
      var first := FirstCut(|run|, cuts);
      var cut: seq<Read> := [run[..128], run[128..256], run[256..first]];
      DiscardingWorks(run[first..], cuts - 1);
      OneCut(run[..first]);
      assert run[..first][..128] == cut[0] && run[..first][128..256] == cut[1] && run[..first][256..] == cut[2];
      assert cut == [run[..first][..128], run[..first][128..256], run[..first][256..]];
      FlatConcat(cut, Discarding(run[first..], cuts - 1));
      assert run == run[..first] + run[first..];
      ReceivedConcat([], cut, Discarding(run[first..], cuts - 1));
    }
  }

  lemma NoCuts(run: seq<byte>)
    requires CutsDiscard(0, |run|)
    ensures run == []
  {}

  lemma OneRead(tail: seq<byte>, c: seq<byte>)
    ensures Received(tail, [c]) == Parsed(tail + c) && Remaining(tail, [c]) == Kept(Tail(tail + c))
  {
    hide Parsed, Tail, Kept;
    NothingBefore(Parsed(tail + c));
  }

  lemma OneCut(run: seq<byte>)
    requires ZeroFree(run) && LEAST_CUT <= |run| <= GREATEST_CUT
    ensures
      var cut := [run[..128], run[128..256], run[256..]];
      Flat(cut) == run && Received([], cut) == [] && Remaining([], cut) == []
  {
    hide Parsed, Tail;
    var a, b, c := run[..128], run[128..256], run[256..];
    assert [] + a == a && a + b == run[..256] && run[..256] + c == run;
    Unbroken(a);
    Unbroken(a + b);
    Unbroken(run);
    assert [a, b, c][1..] == [b, c] && [b, c][1..] == [c];
    assert Flat([c]) == c && Flat([b, c]) == b + c;
    assert a + (b + c) == run;
    OneRead(a + b, c);
    assert Received(a + b, [c]) == [] && Remaining(a + b, [c]) == [];
    assert Received(a, [b, c]) == [] && Remaining(a, [b, c]) == [];
  }

  /** The stream cut so that the reader discards what hides the frame, and however it comes out elsewhere. */
  lemma ExposingCut(before: seq<byte>, run: seq<byte>, hidden: seq<byte>, after: seq<byte>, cuts: nat)
      returns (chunks: seq<Read>)
    requires before == [] || before[|before| - 1] == 0
    requires ZeroFree(run) && CutsDiscard(cuts, |run|)
    requires hidden != [] && hidden[|hidden| - 1] == 0
    ensures Flat(chunks) == before + run + hidden + after
    ensures |Delivered([], chunks)| >= |Parsed(before)| + |Parsed(hidden)| + |Parsed(after)|
  {
    hide *;
    var discarding := Discarding(run, cuts);
    chunks := Pieces(before) + discarding + Pieces(hidden) + Pieces(after);
    DiscardingWorks(run, cuts);
    PiecesJoin(before);
    PiecesJoin(hidden);
    PiecesJoin(after);
    FlatOfFour(Pieces(before), discarding, Pieces(hidden), Pieces(after));
    PiecesGive(before);
    PiecesGive(hidden);
    PiecesGive(after);
    ReceivedOfFour(Pieces(before), discarding, Pieces(hidden), Pieces(after));
    FreshIsReceived(chunks);
  }

  lemma FourParts<T>(s: seq<T>, i: nat, k: nat, j: nat)
    requires i <= k <= j <= |s|
    ensures s[..i] + s[i..k] + s[k..j] + s[j..] == s
  {}

  lemma FlatOfFour(p: seq<seq<byte>>, q: seq<seq<byte>>, r: seq<seq<byte>>, t: seq<seq<byte>>)
    ensures Flat(p + q + r + t) == Flat(p) + Flat(q) + Flat(r) + Flat(t)
  {
    hide *;
    FlatConcat(p, q);
    FlatConcat(p + q, r);
    FlatConcat(p + q + r, t);
  }

  /** Reads that leave nothing behind give what they give one after another. */
  lemma ReceivedOfFour(p: seq<seq<byte>>, q: seq<seq<byte>>, r: seq<seq<byte>>, t: seq<seq<byte>>)
    requires Remaining([], p) == Remaining([], q) == Remaining([], r) == []
    ensures |Received([], p + q + r + t)|
         == |Received([], p)| + |Received([], q)| + |Received([], r)| + |Received([], t)|
  {
    hide *;
    ReceivedConcat([], p, q);
    ReceivedConcat([], p + q, r);
    ReceivedConcat([], p + q + r, t);
  }

  lemma EndsOfParts(s: seq<byte>, i: nat, k: nat, j: nat)
    requires HidesAt(s, i, k, j)
    ensures ZeroFree(s[i..k]) && ZeroFree(s[k..j])
    ensures s[..i] == [] || s[..i][|s[..i]| - 1] == 0
    ensures s[k..j + 1] == s[k..j] + [0] && s[i..j + 1] == s[i..j] + [0]
  {
    hide PacketsIn, CanDiscard;
    Subranges(s, i, k, j);
  }

  lemma Subranges<T>(s: seq<T>, i: nat, k: nat, j: nat)
    requires i <= k <= j <= |s|
    ensures s[i..k] == s[i..j][..k - i] && s[k..j] == s[i..j][k - i..]
    ensures j < |s| ==> s[k..j + 1] == s[k..j] + [s[j]] && s[i..j + 1] == s[i..j] + [s[j]]
  {}

  /** The packets of the whole stream, without the one hidden in the segment. */
  lemma HiddenFrame(s: seq<byte>, i: nat, k: nat, j: nat)
    requires HidesAt(s, i, k, j)
    ensures |Parsed(s)| == |Parsed(s[..i])| + |Parsed(s[j + 1..])| && |Parsed(s[k..j + 1])| >= 1
  {
    EndsOfParts(s, i, k, j);
    SegmentIsLong(s, i, k, j);
    hide Parsed, Tail, ZeroFree, HidesAt;
    Rejoined(s, i, j);
    WithoutSegment(s[..i], s[i..j], s[j + 1..]);
    OneSegment(s[k..j]);
  }

  lemma Rejoined(s: seq<byte>, i: nat, j: nat)
    requires i <= j < |s| && s[j] == 0
    ensures s[..i] + (s[i..j] + [0] + s[j + 1..]) == s
  {}

  lemma WithoutSegment(before: seq<byte>, segment: seq<byte>, after: seq<byte>)
    requires ZeroFree(segment) && |segment| > RX_LIMIT && (before == [] || before[|before| - 1] == 0)
    ensures Parsed(before + (segment + [0] + after)) == Parsed(before) + Parsed(after)
  {
    hide PacketsIn, Parsed, Tail, ZeroFree;
    OneSegment(segment);
    LongFrameRejected(segment);
    NothingAfterSegment(before);
    ParsedConcat(before, segment + [0] + after);
    ParsedConcat(segment + [0], after);
    NothingBefore(segment + [0] + after);
    NothingBefore(after);
    NothingBefore(Parsed(after));
  }

  lemma SegmentIsLong(s: seq<byte>, i: nat, k: nat, j: nat)
    requires HidesAt(s, i, k, j)
    ensures ZeroFree(s[i..j]) && |s[i..j]| > RX_LIMIT && PacketsIn(s[k..j]) != []
  {
    hide PacketsIn, ZeroFree;
    var cuts: nat :| CutsDiscard(cuts, k - i);
    assert cuts >= 1;
  }

  lemma NothingAfterSegment(s: seq<byte>)
    requires s == [] || s[|s| - 1] == 0
    ensures Tail(s) == []
  {
    if s == [] {
      Unbroken(s);
    } else {
      NothingAfterDelimiter(s);
    }
  }

  /**
    Exactly the streams that hide no frame are received alike under every cut into reads of at most 128 bytes: as the
    packets of their accepted segments, in order.
   */
  lemma CutsDoNotMatterExactly(s: seq<byte>)
    ensures (forall chunks: seq<Read> :: Flat(chunks) == s ==> Delivered([], chunks) == Parsed(s)) <==> !Hides(s)
  {
    hide Hides, Discarded, HidesAt, CutsDiscard, Delivered, Flat, Parsed;
    if !Hides(s) {
      forall chunks: seq<Read> | Flat(chunks) == s ensures Delivered([], chunks) == Parsed(s) {
        NothingDiscarded();
        NothingBefore(s);
        ReadsGiveParsed([], [], chunks);
      }
    } else {
      var chunks := SomeCutExposes(s);
      assert Flat(chunks) == s && Delivered([], chunks) != Parsed(s);
    }
  }

  lemma SomeCutExposes(s: seq<byte>) returns (chunks: seq<Read>)
    requires Hides(s)
    ensures Flat(chunks) == s && |Delivered([], chunks)| > |Parsed(s)|
  {
    hide *;
    var before, run, hidden, after, cuts := HiddenParts(s);
    chunks := ExposingCut(before, run, hidden, after, cuts);
  }

  lemma HiddenParts(s: seq<byte>)
      returns (before: seq<byte>, run: seq<byte>, hidden: seq<byte>, after: seq<byte>, cuts: nat)
    requires Hides(s)
    ensures s == before + run + hidden + after && |Parsed(s)| < |Parsed(before)| + |Parsed(hidden)| + |Parsed(after)|
    ensures (before == [] || before[|before| - 1] == 0) && hidden != [] && hidden[|hidden| - 1] == 0
    ensures ZeroFree(run) && CutsDiscard(cuts, |run|)
  {
    var i: nat, k: nat, j: nat :| HidesAt(s, i, k, j);
    cuts :| CutsDiscard(cuts, k - i);
    assert i < k < j < |s|;
    HiddenFrame(s, i, k, j);
    hide *;
    before, run, hidden, after := PartsOf(s, i, k, j);
  }

  lemma PartsOf(s: seq<byte>, i: nat, k: nat, j: nat)
      returns (before: seq<byte>, run: seq<byte>, hidden: seq<byte>, after: seq<byte>)
    requires HidesAt(s, i, k, j)
    ensures before == s[..i] && run == s[i..k] && hidden == s[k..j + 1] && after == s[j + 1..]
    ensures s == before + run + hidden + after && |run| == k - i && ZeroFree(run)
    ensures (before == [] || before[|before| - 1] == 0) && hidden != [] && hidden[|hidden| - 1] == 0
  {
    EndsOfParts(s, i, k, j);
    hide ZeroFree, PacketsIn, CanDiscard;
    before, run, hidden, after := s[..i], s[i..k], s[k..j + 1], s[j + 1..];
    FourParts(s, i, k, j + 1);
  }

  /** No stretch of more than 256 bytes lacks a delimiter. */
  ghost predicate RunsBounded(s: seq<byte>) {
    forall i, j :: 0 <= i <= j <= |s| && ZeroFree(s[i..j]) ==> j - i <= RX_LIMIT
  }

  lemma BoundedRunsHideNothing(s: seq<byte>)
    requires RunsBounded(s)
    ensures !Hides(s)
  {
    hide PacketsIn, CanDiscard, RunsBounded;
    if Hides(s) {
      var i: nat, k: nat, j: nat :| HidesAt(s, i, k, j);
      SegmentIsLong(s, i, k, j);
      RunIsBounded(s, i, j);
    }
  }

  lemma RunIsBounded(s: seq<byte>, i: nat, j: nat)
    requires RunsBounded(s) && i <= j <= |s| && ZeroFree(s[i..j])
    ensures j - i <= RX_LIMIT
  {
    hide ZeroFree;
  }

  // ----- A stream that is received differently -----

  /** Any frame behind a run of 257 bytes without a delimiter is hidden. */
  lemma LongRunHides(run: seq<byte>, p: Packet)
    requires ZeroFree(run) && |run| == LEAST_CUT && p.Sendable()
    ensures Hides(run + Frame(p))
  {
    hide Frame, DecodeFrame;
    FrameLength(p);
    FrameDelimited(p);
    var f, s := Frame(p)[..|Frame(p)| - 1], run + Frame(p);
    assert Frame(p) == f + [0];
    FrameCanonical(f, p);
    assert CutsDiscard(1, |run|);
    assert s[0..|run| + |f|] == run + f && s[|run|..|run| + |f|] == f;
    assert HidesAt(s, 0, |run|, |run| + |f|);
  }

  /**
    The same 257 bytes and frame, read to the end of the run and then the frame, give the packet; read with the frame in
    the read that ends the run, they give nothing.
   */
  lemma LongRunsDependOnChunking(run: seq<byte>, p: Packet)
    requires ZeroFree(run) && |run| == LEAST_CUT && p.Sendable() && |Frame(p)| < READ_SIZE
    ensures Flat(CutAtRun(run, Frame(p))) == Flat(CutInFrame(run, Frame(p))) == run + Frame(p)
    ensures Delivered([], CutAtRun(run, Frame(p))) == [p] && Delivered([], CutInFrame(run, Frame(p))) == []
  {
    FrameSegment(p);
    hide *;
    RunForgotten(run, Frame(p));
    RunRemembered(run, Frame(p));
    NothingBefore([p]);
  }

  function CutAtRun(run: seq<byte>, frame: seq<byte>): seq<Read>
    requires |run| == LEAST_CUT && |frame| < READ_SIZE
  {
    [run[..128], run[128..256], run[256..], frame]
  }

  function CutInFrame(run: seq<byte>, frame: seq<byte>): seq<Read>
    requires |run| == LEAST_CUT && |frame| < READ_SIZE
  {
    [run[..128], run[128..256], run[256..] + frame]
  }

  lemma RunForgotten(run: seq<byte>, frame: seq<byte>)
    requires ZeroFree(run) && |run| == LEAST_CUT && |frame| < READ_SIZE
    ensures Flat(CutAtRun(run, frame)) == run + frame && Delivered([], CutAtRun(run, frame)) == Parsed(frame)
  {
    hide Delivered, Flat, Received, Remaining, Parsed, Tail;
    OneCut(run);
    var cut: seq<Read> := [run[..128], run[128..256], run[256..]];
    assert CutAtRun(run, frame) == cut + [frame];
    ReceivedConcat([], cut, [frame]);
    FlatConcat(cut, [frame]);
    FlatOne(frame);
    OneRead([], frame);
    FreshIsReceived(CutAtRun(run, frame));
    NothingBefore(frame);
    NothingBefore(Parsed(frame));
  }

  lemma RunRemembered(run: seq<byte>, frame: seq<byte>)
    requires ZeroFree(run) && |run| == LEAST_CUT && |frame| < READ_SIZE
    requires frame != [] && frame[|frame| - 1] == 0 && ZeroFree(frame[..|frame| - 1])
    ensures Flat(CutInFrame(run, frame)) == run + frame && Delivered([], CutInFrame(run, frame)) == []
  {
    var a, b, c, f := run[..128], run[128..256], run[256..], frame[..|frame| - 1];
    assert a + b == run[..256] && frame == f + [0];
    Unbroken(a);
    Unbroken(a + b);
    hide Delivered, Flat, Parsed, Tail, PacketsIn, CutInFrame;
    assert CutInFrame(run, frame) == [a, b, c + frame] by { CutsInFrame(run, frame); }
    ThreeReads(a, b, c + frame);
    assert a + b + (c + frame) == run + frame == run + f + [0] by { RunOfThree(run, frame); }
    ZeroFreeJoin(run, f);
    OneSegment(run + f);
    LongFrameRejected(run + f);
  }

  lemma CutsInFrame(run: seq<byte>, frame: seq<byte>)
    requires |run| == LEAST_CUT && |frame| < READ_SIZE
    ensures CutInFrame(run, frame) == [run[..128], run[128..256], run[256..] + frame]
  {}

  lemma RunOfThree<T>(run: seq<T>, frame: seq<T>)
    requires |run| == LEAST_CUT && frame != []
    ensures run[..128] + run[128..256] + (run[256..] + frame) == run + frame
    ensures run + frame == run + frame[..|frame| - 1] + [frame[|frame| - 1]]
  {}

  /** Two reads that are kept whole, and a third. */
  lemma ThreeReads(a: seq<byte>, b: seq<byte>, c: seq<byte>)
    requires Parsed(a) == Parsed(a + b) == [] && Kept(Tail(a)) == a && Kept(Tail(a + b)) == a + b
    ensures Flat([a, b, c]) == a + b + c && Delivered([], [a, b, c]) == Parsed(a + b + c)
  {
    hide Parsed, Tail, Kept, Delivered, Received, Remaining, Flat;
    assert [a, b, c] == [a] + [b] + [c];
    OneRead([], a);
    OneRead(a, b);
    OneRead(a + b, c);
    NothingBefore(a);
    NothingBefore(Parsed(a + b + c));
    ReceivedConcat([], [a], [b]);
    ReceivedConcat([], [a] + [b], [c]);
    FlatConcat([a], [b]);
    FlatConcat([a] + [b], [c]);
    FlatOne(a);
    FlatOne(b);
    FlatOne(c);
    FreshIsReceived([a, b, c]);
  }

  lemma FlatOne(s: seq<byte>)
    ensures Flat([s]) == s
  {
    NothingBefore(s);
  }

  /** A frame on its own is one segment, and gives its packet. */
  lemma FrameSegment(p: Packet)
    requires p.Sendable()
    ensures Frame(p) != []
    ensures
      var f := Frame(p)[..|Frame(p)| - 1];
      Frame(p) == f + [0] && ZeroFree(f) && PacketsIn(f) == [p] && Parsed(Frame(p)) == [p] && Tail(Frame(p)) == []
  {
    FrameLength(p);
    FrameDelimited(p);
    var f := Frame(p)[..|Frame(p)| - 1];
    assert Frame(p) == f + [0];
    hide Frame;
    FrameCanonical(f, p);
    hide DecodeFrame;
    OneSegment(f);
  }

  // ----- What the firmware sends -----

  lemma {:induction false} FramesParse(packets: seq<Packet>)
    requires Framing.AllSendable(packets)
    ensures Parsed(Framing.Frames(packets)) == packets && Tail(Framing.Frames(packets)) == []
    decreases |packets|
  {
    hide Parsed, Tail, Frame;
    if packets == [] {
      Unbroken([]);
    } else {
      var init, last := packets[..|packets| - 1], packets[|packets| - 1];
      FramesParse(init);
      FrameSegment(last);
      ParsedConcat(Framing.Frames(init), Frame(last));
      TailConcat(Framing.Frames(init), Frame(last));
      NothingBefore(Frame(last));
      assert packets == init + [last];
    }
  }

  /** Runs stay bounded when a short piece follows a delimiter. */
  lemma BoundedJoin(s: seq<byte>, t: seq<byte>)
    requires RunsBounded(s) && |t| <= RX_LIMIT && (s == [] || s[|s| - 1] == 0)
    ensures RunsBounded(s + t)
  {
    hide RunsBounded;
    BoundedPieces(s, t);
    BoundedIf(s + t);
  }

  lemma BoundedPieces(s: seq<byte>, t: seq<byte>)
    requires RunsBounded(s) && |t| <= RX_LIMIT && (s == [] || s[|s| - 1] == 0)
    ensures forall i, j :: 0 <= i <= j <= |s + t| && ZeroFree((s + t)[i..j]) ==> j - i <= RX_LIMIT
  {
    hide RunsBounded;
    forall i, j | 0 <= i <= j <= |s + t| && ZeroFree((s + t)[i..j]) ensures j - i <= RX_LIMIT {
      if j <= |s| {
        assert (s + t)[i..j] == s[i..j];
        RunIsBounded(s, i, j);
      } else if i < |s| {
        AcrossDelimiter(s, t, i, j);
        assert false;
      }
    }
  }

  lemma AcrossDelimiter(s: seq<byte>, t: seq<byte>, i: nat, j: nat)
    requires i < |s| < j <= |s + t| && s[|s| - 1] == 0
    ensures !ZeroFree((s + t)[i..j])
  {
    assert (s + t)[i..j][|s| - 1 - i] == 0;
  }

  lemma BoundedIf(s: seq<byte>)
    requires forall i, j :: 0 <= i <= j <= |s| && ZeroFree(s[i..j]) ==> j - i <= RX_LIMIT
    ensures RunsBounded(s)
  {}

  lemma {:induction false} FramesAreBounded(packets: seq<Packet>)
    requires Framing.AllSendable(packets)
    ensures
      var s := Framing.Frames(packets);
      RunsBounded(s) && (s == [] || s[|s| - 1] == 0)
    decreases |packets|
  {
    hide RunsBounded, Frame, ZeroFree;
    if packets == [] {
      BoundedNothing();
    } else {
      var init, last := packets[..|packets| - 1], packets[|packets| - 1];
      FramesAreBounded(init);
      FrameLength(last);
      FrameDelimited(last);
      BoundedJoin(Framing.Frames(init), Frame(last));
    }
  }

  lemma BoundedNothing()
    ensures RunsBounded([])
  {}

  /**
    Whatever packets the firmware writes, and however the port cuts them into reads, the host receives exactly those.
   */
  lemma HostReceivesFrames(packets: seq<Packet>, chunks: seq<Read>)
    requires Framing.AllSendable(packets) && Flat(chunks) == Framing.Frames(packets)
    ensures Delivered([], chunks) == packets
  {
    hide *;
    FramesParse(packets);
    FramesAreBounded(packets);
    BoundedRunsHideNothing(Flat(chunks));
    CutsDoNotMatterExactly(Flat(chunks));
  }
}
