/** The write-ahead log: length-prefixed records in one append-only file. */
module Wals {
  import opened Options

  type Byte = b: int | 0 <= b < 256
  type Record = seq<Byte>

  const LIMIT := 0x1_0000_0000

  /** The k low-order bytes of n, least significant first. */
  function LittleEndian(n: nat, k: nat): (h: seq<Byte>)
    ensures |h| == k
  {
    if k == 0 then [] else [n % 256] + LittleEndian(n / 256, k - 1)
  }

  function FromLittleEndian(h: seq<Byte>): (n: nat) {
    if h == [] then 0 else h[0] as int + 256 * FromLittleEndian(h[1..])
  }

  function Power256(k: nat): nat {
    if k == 0 then 1 else 256 * Power256(k - 1)
  }

  lemma {:induction false} LittleEndianInverts(n: nat, k: nat)
    requires n < Power256(k)
    ensures FromLittleEndian(LittleEndian(n, k)) == n
  {
    if k > 0 {
      LittleEndianInverts(n / 256, k - 1);
      assert LittleEndian(n, k)[1..] == LittleEndian(n / 256, k - 1);
    }
  }

  /** binary.LittleEndian.PutUint32(uint32(n)): four bytes, so n is taken modulo 2^32. */
  function Header(n: nat): (h: seq<Byte>)
    ensures |h| == 4
  {
    LittleEndian(n, 4)
  }

  /** binary.LittleEndian.Uint32. */
  function Length(h: seq<Byte>): (n: nat)
    requires |h| == 4
  {
    FromLittleEndian(h)
  }

  lemma LengthOfHeader(n: nat)
    requires n < LIMIT
    ensures Length(Header(n)) == n
  {
    assert Power256(4) == LIMIT;
    LittleEndianInverts(n, 4);
  }

  /** What one Append of a record writes; nothing at all for an empty one. */
  function Frame(b: Record): (r: seq<Byte>)
    ensures |r| == if b == [] then 0 else 4 + |b|
  {
    if b == [] then [] else Header(|b|) + b
  }

  /** What a list of Appends writes. */
  function Log(recs: seq<Record>): seq<Byte> {
    if recs == [] then [] else Frame(recs[0]) + Log(recs[1..])
  }

  lemma {:induction false} LogAppends(a: seq<Record>, b: seq<Record>)
    ensures Log(a + b) == Log(a) + Log(b)
  {
    if a == [] {
      assert a + b == b;
    } else {
      assert (a + b)[1..] == a[1..] + b;
      LogAppends(a[1..], b);
      assert Frame(a[0]) + (Log(a[1..]) + Log(b)) == (Frame(a[0]) + Log(a[1..])) + Log(b);
    }
  }

  /** Records already read, in front of what the rest of the file gives. */
  function Prepend(a: seq<Record>, r: Option<seq<Record>>): Option<seq<Record>> {
    match r case None => None case Some(more) => Some(a + more)
  }

  lemma PrependTwice(a: seq<Record>, b: seq<Record>, r: Option<seq<Record>>)
    ensures Prepend(a, Prepend(b, r)) == Prepend(a + b, r)
    ensures Prepend([], r) == r
  {
    if r.Some? {
      assert a + (b + r.value) == (a + b) + r.value;
      assert [] + r.value == r.value;
    }
  }

  /** Reading a file from the start: whole records, or None for an error. */
  function Parse(bytes: seq<Byte>): Option<seq<Record>>
    decreases |bytes|
  {
    if |bytes| < 4 then Some([])                        // nothing left, or a truncated header
    else
      var n, rest := Length(bytes[..4]), bytes[4..];
      if n == 0 then Parse(rest)
      else if |rest| < n then None                      // a truncated payload
      else Prepend([rest[..n]], Parse(rest[n..]))
  }

  predicate Loggable(b: Record) {
    0 < |b| < LIMIT
  }

  /** One whole frame in front adds exactly its record. */
  lemma ParseFrame(b: Record, tail: seq<Byte>)
    requires Loggable(b)
    ensures Parse(Frame(b) + tail) == Prepend([b], Parse(tail))
  {
    var bytes := Frame(b) + tail;
    LengthOfHeader(|b|);
    var rest := b + tail;
    assert bytes == Header(|b|) + rest;
    assert bytes[..4] == Header(|b|) && bytes[4..] == rest;
    assert rest[..|b|] == b && rest[|b|..] == tail;
  }

  /** Replay inverts Append. */
  lemma {:induction false} ReplayInvertsAppend(recs: seq<Record>)
    requires forall i :: 0 <= i < |recs| ==> Loggable(recs[i])
    ensures Parse(Log(recs)) == Some(recs)
  {
    if recs != [] {
      ParseFrame(recs[0], Log(recs[1..]));
      ReplayInvertsAppend(recs[1..]);
      assert [recs[0]] + recs[1..] == recs;
    }
  }

  // ---------------------------------------------------------------- crashes

  /** How many records lie wholly before byte k of their log. */
  function Whole(recs: seq<Record>, k: nat): (m: nat)
    ensures m <= |recs|
  {
    if recs == [] || k < |Frame(recs[0])| then 0 else 1 + Whole(recs[1..], k - |Frame(recs[0])|)
  }

  /** How far byte k lies into the record it cuts; 0 on a frame boundary. */
  function Torn(recs: seq<Record>, k: nat): nat
    requires k <= |Log(recs)|
  {
    if recs == [] || k < |Frame(recs[0])| then k else Torn(recs[1..], k - |Frame(recs[0])|)
  }

  lemma {:induction false} WholeAndTorn(recs: seq<Record>, k: nat)
    requires k <= |Log(recs)|
    ensures k == |Log(recs[..Whole(recs, k)])| + Torn(recs, k)
    ensures Torn(recs, k) > 0 ==> Whole(recs, k) < |recs| && Torn(recs, k) < |Frame(recs[Whole(recs, k)])|
  {
    hide Frame;
    if recs != [] && k >= |Frame(recs[0])| {
      var m := Whole(recs[1..], k - |Frame(recs[0])|);
      WholeAndTorn(recs[1..], k - |Frame(recs[0])|);
      LogOfPrefix(recs, m);
    }
  }

  lemma LogOfPrefix(recs: seq<Record>, m: nat)
    requires m < |recs|
    ensures Log(recs[..1 + m]) == Frame(recs[0]) + Log(recs[1..][..m])
  {
    hide Frame;
    assert recs[..1 + m][0] == recs[0] && recs[..1 + m][1..] == recs[1..][..m];
  }

  lemma ParseCutFrame(b: Record, k: nat)
    requires Loggable(b) && k < |Frame(b)|
    ensures Parse(Frame(b)[..k]) == if k < 4 then Some([]) else None
  {
    if k >= 4 {
      LengthOfHeader(|b|);
      assert Frame(b)[..k][..4] == Header(|b|);
    }
  }

  /** Whole frames in front add exactly their records, whatever follows. */
  lemma {:induction false} ParseLog(recs: seq<Record>, tail: seq<Byte>)
    requires forall i :: 0 <= i < |recs| ==> Loggable(recs[i])
    ensures Parse(Log(recs) + tail) == Prepend(recs, Parse(tail))
  {
    if recs == [] {
      assert Log(recs) + tail == tail;
      PrependTwice([], [], Parse(tail));
    } else {
      assert Log(recs) + tail == Frame(recs[0]) + (Log(recs[1..]) + tail);
      ParseFrame(recs[0], Log(recs[1..]) + tail);
      ParseLog(recs[1..], tail);
      PrependTwice([recs[0]], recs[1..], Parse(tail));
      assert [recs[0]] + recs[1..] == recs;
    }
  }

  /** The bytes of the record the cut falls in, up to the cut. */
  function Stray(recs: seq<Record>, k: nat): (r: seq<Byte>)
    requires k <= |Log(recs)|
    ensures |r| == Torn(recs, k)
  {
    WholeAndTorn(recs, k);
    if Torn(recs, k) == 0 then [] else Frame(recs[Whole(recs, k)])[..Torn(recs, k)]
  }

  lemma TakeAcross(before: seq<Byte>, frame: seq<Byte>, after: seq<Byte>, torn: nat)
    requires torn <= |frame|
    ensures (before + (frame + after))[..|before| + torn] == before + frame[..torn]
    ensures (before + after)[..|before|] == before + []
  {
    assert (before + (frame + after))[..|before| + torn] == before + (frame + after)[..torn];
  }

  /** A cut log is its whole frames and the stray bytes. */
  lemma CutIsWholeAndStray(recs: seq<Record>, k: nat)
    requires k <= |Log(recs)|
    ensures Log(recs)[..k] == Log(recs[..Whole(recs, k)]) + Stray(recs, k)
  {
    WholeAndTorn(recs, k);
    var m, torn := Whole(recs, k), Torn(recs, k);
    LogSplits(recs, m);
    assert Stray(recs, k) == if torn == 0 then [] else Frame(recs[m])[..torn];
    hide *;
    if torn > 0 {
      TakeAcross(Log(recs[..m]), Frame(recs[m]), Log(recs[m + 1..]), torn);
    } else {
      TakeAcross(Log(recs[..m]), [], Log(recs[m..]), 0);
    }
  }

  lemma LogSplits(recs: seq<Record>, m: nat)
    requires m <= |recs|
    ensures Log(recs) == Log(recs[..m]) + Log(recs[m..])
    ensures m < |recs| ==> Log(recs) == Log(recs[..m]) + (Frame(recs[m]) + Log(recs[m + 1..]))
  {
    assert recs == recs[..m] + recs[m..];
    LogAppends(recs[..m], recs[m..]);
    if m < |recs| { assert recs[m..][0] == recs[m] && recs[m..][1..] == recs[m + 1..]; }
  }

  /** So whatever is appended after the crash is parsed from the stray bytes on. */
  lemma ParseAfterCrash(recs: seq<Record>, k: nat, more: seq<Byte>)
    requires forall i :: 0 <= i < |recs| ==> Loggable(recs[i])
    requires k <= |Log(recs)|
    ensures Parse(Log(recs)[..k] + more) == Prepend(recs[..Whole(recs, k)], Parse(Stray(recs, k) + more))
  {
    hide Parse, Log, Whole, Torn, Stray, Frame, Prepend;
    CutIsWholeAndStray(recs, k);
    var whole := recs[..Whole(recs, k)];
    Reassociate(Log(whole), Stray(recs, k), more);
    ParseLog(whole, Stray(recs, k) + more);
  }

  lemma Reassociate(a: seq<Byte>, b: seq<Byte>, c: seq<Byte>)
    ensures (a + b) + c == a + (b + c)
  {
  }

  /**
    A log cut at any byte: every whole record before the cut if the cut is on a frame
    boundary or inside a header, and an error if it is inside a payload.
   */
  lemma ReplayAfterCrash(recs: seq<Record>, k: nat)
    requires forall i :: 0 <= i < |recs| ==> Loggable(recs[i])
    requires k <= |Log(recs)|
    ensures Parse(Log(recs)[..k]) == if Torn(recs, k) < 4 then Some(recs[..Whole(recs, k)]) else None
  {
    ParseAfterCrash(recs, k, []);
    assert Log(recs)[..k] + [] == Log(recs)[..k] && Stray(recs, k) + [] == Stray(recs, k);
    WholeAndTorn(recs, k);
    if Torn(recs, k) > 0 {
      ParseCutFrame(recs[Whole(recs, k)], Torn(recs, k));
    }
    var whole := recs[..Whole(recs, k)];
    assert whole + [] == whole;
    hide Whole, Torn, Log;
  }

  // ---------------------------------------------------------------- appending after a crash

  /** A short record behind one to three stray bytes is read with a length beyond the end of the file. */
  lemma StrayThenShort(stray: seq<Byte>, b: Record)
    requires 1 <= |stray| <= 3 && 1 <= |b| < 256
    ensures Parse(stray + Frame(b)) == None
  {
    var bytes := stray + Frame(b);
    ShortHeader(|b|);
    var h := bytes[..4];
    var j := |stray|;
    LengthOfFour(h);
    assert h[j] == |b|;
    assert |bytes[4..]| == j + |b|;
  }

  lemma ShortHeader(n: nat)
    requires n < 256
    ensures Header(n) == [n, 0, 0, 0]
  {
    assert LittleEndian(0, 3) == [0] + LittleEndian(0, 2);
  }

  lemma LengthOfFour(h: seq<Byte>)
    requires |h| == 4
    ensures Length(h) == h[0] as int + 256 * h[1] as int + 65536 * h[2] as int + 16777216 * h[3] as int
  {
    assert FromLittleEndian([h[3]]) == h[3] as int + 256 * FromLittleEndian([]);
    assert h[3..] == [h[3]] && h[2..][1..] == h[3..] && h[1..][1..] == h[2..];
    assert FromLittleEndian(h[2..]) == h[2] as int + 256 * FromLittleEndian(h[3..]);
    assert FromLittleEndian(h[1..]) == h[1] as int + 256 * FromLittleEndian(h[2..]);
  }

  /** The log can go on being used: everything appended later is replayed behind the whole records. */
  ghost predicate GoesOn(recs: seq<Record>, k: nat)
    requires k <= |Log(recs)|
  {
    forall more: seq<Record> :: (forall i :: 0 <= i < |more| ==> Loggable(more[i])) ==>
      Parse(Log(recs)[..k] + Log(more)) == Some(recs[..Whole(recs, k)] + more)
  }

  /** A short record appended to a log torn inside a header makes Replay fail, always. */
  lemma ShortAppendAfterTornHeader(recs: seq<Record>, k: nat, b: Record)
    requires forall i :: 0 <= i < |recs| ==> Loggable(recs[i])
    requires k <= |Log(recs)| && 1 <= Torn(recs, k) <= 3 && 1 <= |b| < 256
    ensures Parse(Log(recs)[..k] + Frame(b)) == None
  {
    ParseAfterCrash(recs, k, Frame(b));
    StrayThenShort(Stray(recs, k), b);
  }

  /** One record is read from the front of a file. */
  lemma ParseStep(header: seq<Byte>, n: nat, rest: seq<Byte>)
    requires |header| == 4 && Length(header) == n > 0
    ensures Parse(header + rest) == if |rest| < n then None else Prepend([rest[..n]], Parse(rest[n..]))
  {
    hide Length;
    var bytes := header + rest;
    assert bytes[..4] == header && bytes[4..] == rest;
  }

  lemma TakeBoth(kept: seq<Byte>, more: seq<Byte>, n: nat)
    requires |kept| <= n <= |kept| + |more|
    ensures (kept + more)[..n] == kept + more[..n - |kept|] && (kept + more)[n..] == more[n - |kept|..]
  {
  }

  lemma CutFrame(b: Record, j: nat, more: seq<Byte>)
    requires b != [] && 4 <= j <= |Frame(b)|
    ensures Frame(b)[..j] + more == Header(|b|) + (b[..j - 4] + more)
  {
    assert Frame(b)[..j] == Header(|b|) + b[..j - 4];
    Reassociate(Header(|b|), b[..j - 4], more);
  }

  /** Behind a cut inside a payload, what follows is taken for the rest of the record. */
  lemma ParseCutPayload(b: Record, j: nat, more: seq<Byte>)
    requires Loggable(b) && 4 <= j < |Frame(b)|
    ensures var missing := |Frame(b)| - j;
      Parse(Frame(b)[..j] + more) ==
        if |more| < missing then None else Prepend([b[..j - 4] + more[..missing]], Parse(more[missing..]))
  {
    hide Parse, Length, Header, Frame;
    var kept, missing := b[..j - 4], |Frame(b)| - j;
    LengthOfHeader(|b|);
    CutFrame(b, j, more);
    ParseStep(Header(|b|), |b|, kept + more);
    if |more| >= missing { TakeBoth(kept, more, |b|); }
  }

  /**
    A log cut inside a payload and appended to regardless: Replay fails until the later bytes
    make up what the record is missing, and then returns them as its end, and goes on from
    there. For every log, every such cut and everything that follows.
   */
  lemma TornPayloadSwallows(recs: seq<Record>, k: nat, more: seq<Byte>)
    requires forall i :: 0 <= i < |recs| ==> Loggable(recs[i])
    requires k <= |Log(recs)| && Torn(recs, k) >= 4
    ensures Whole(recs, k) < |recs| && Torn(recs, k) < |Frame(recs[Whole(recs, k)])|
    ensures var whole, b, j := recs[..Whole(recs, k)], recs[Whole(recs, k)], Torn(recs, k);
      var missing := |Frame(b)| - j;
      Parse(Log(recs)[..k] + more) ==
        if |more| < missing then None else Prepend(whole + [b[..j - 4] + more[..missing]], Parse(more[missing..]))
  {
    hide Parse, Log, Whole, Torn, Frame, Prepend, Stray;
    WholeAndTorn(recs, k);
    ParseAfterCrash(recs, k, more);
    StrayOf(recs, k);
    var whole, b, j := recs[..Whole(recs, k)], recs[Whole(recs, k)], Torn(recs, k);
    var missing := |Frame(b)| - j;
    ParseCutPayload(b, j, more);
    if |more| >= missing {
      PrependTwice(whole, [b[..j - 4] + more[..missing]], Parse(more[missing..]));
    } else {
      PrependNone(whole);
    }
  }

  lemma StrayOf(recs: seq<Record>, k: nat)
    requires k <= |Log(recs)| && Torn(recs, k) > 0
    ensures Whole(recs, k) < |recs| && Torn(recs, k) < |Frame(recs[Whole(recs, k)])|
    ensures Stray(recs, k) == Frame(recs[Whole(recs, k)])[..Torn(recs, k)]
  {
    WholeAndTorn(recs, k);
  }

  lemma PrependNone(a: seq<Record>)
    ensures Prepend(a, None) == None
  {
  }

  /** Later appends are all replayed, behind the whole records, exactly when the cut is on a frame boundary. */
  lemma LogGoesOnIffNotTorn(recs: seq<Record>, k: nat)
    requires forall i :: 0 <= i < |recs| ==> Loggable(recs[i])
    requires k <= |Log(recs)|
    ensures GoesOn(recs, k) <==> Torn(recs, k) == 0
  {
    if Torn(recs, k) == 0 {
      WholeLogGoesOn(recs, k);
    } else if Torn(recs, k) < 4 {
      var b: Record := [9];
      ShortAppendAfterTornHeader(recs, k, b);
      assert Log([b]) == Frame(b) + Log([]) == Frame(b);
      assert Loggable([b][0]);
    } else {
      ReplayAfterCrash(recs, k);
      var none: seq<Record> := [];
      assert Log(recs)[..k] + Log(none) == Log(recs)[..k];
    }
  }

  lemma WholeLogGoesOn(recs: seq<Record>, k: nat)
    requires forall i :: 0 <= i < |recs| ==> Loggable(recs[i])
    requires k <= |Log(recs)| && Torn(recs, k) == 0
    ensures GoesOn(recs, k)
  {
    forall more: seq<Record> | forall i :: 0 <= i < |more| ==> Loggable(more[i])
      ensures Parse(Log(recs)[..k] + Log(more)) == Some(recs[..Whole(recs, k)] + more)
    {
      ParseAfterCrash(recs, k, Log(more));
      assert Stray(recs, k) + Log(more) == Log(more);
      ReplayInvertsAppend(more);
    }
  }

  /** Later bytes that are exactly what the record is missing complete it, and Replay sees nothing wrong. */
  lemma ExactlyMissingForges(recs: seq<Record>, k: nat, more: seq<Byte>)
    requires forall i :: 0 <= i < |recs| ==> Loggable(recs[i])
    requires k <= |Log(recs)| && Torn(recs, k) >= 4
    requires k + |more| == |Log(recs[..Whole(recs, k)])| + if Whole(recs, k) < |recs| then |Frame(recs[Whole(recs, k)])| else 0
    ensures Whole(recs, k) < |recs| && Torn(recs, k) < |Frame(recs[Whole(recs, k)])|
    ensures Parse(Log(recs)[..k]) == None
    ensures Parse(Log(recs)[..k] + more) == Some(recs[..Whole(recs, k)] + [recs[Whole(recs, k)][..Torn(recs, k) - 4] + more])
  {
    hide Parse, Log, Whole, Torn, Prepend, Frame;
    WholeAndTorn(recs, k);
    ReplayAfterCrash(recs, k);
    TornPayloadSwallows(recs, k, more);
    assert more[..|more|] == more && more[|more|..] == [];
    PrependNothing(recs[..Whole(recs, k)] + [recs[Whole(recs, k)][..Torn(recs, k) - 4] + more]);
  }

  lemma PrependNothing(a: seq<Record>)
    ensures Prepend(a, Parse([])) == Some(a)
  {
    assert a + [] == a;
  }

  /** So a record of ten bytes, cut after three of them, is completed by the frame of the next append. */
  lemma TornPayloadCanForgeARecord(b: Record)
    requires |b| == 10
    ensures |Log([b])| == 14 && Parse(Log([b])[..7]) == None
    ensures Parse(Log([b])[..7] + Frame([42, 43, 44])) == Some([b[..3] + [3, 0, 0, 0, 42, 43, 44]])
  {
    OneRecordTorn(b);
    ShortFrame();
    hide Parse, Log, Whole, Torn, Frame;
    ExactlyMissingForges([b], 7, Frame([42, 43, 44]));
    assert [b][..0] + [b[..3] + [3, 0, 0, 0, 42, 43, 44]] == [b[..3] + [3, 0, 0, 0, 42, 43, 44]];
  }

  lemma OneRecordTorn(b: Record)
    requires |b| == 10
    ensures |Log([b])| == 14 && Torn([b], 7) == 7 && Whole([b], 7) == 0 && |Frame(b)| == 14 && |Log([b][..0])| == 0
  {
    hide Header;
  }

  lemma ShortFrame()
    ensures Frame([42, 43, 44]) == [3, 0, 0, 0, 42, 43, 44]
  {
    ShortHeader(3);
    hide Header;
  }

  function Zeros(n: nat): (r: Record)
    ensures |r| == n && forall i :: 0 <= i < n ==> r[i] == 0
  {
    seq(n, _ => 0)
  }

  /**
    It can also go wrong silently: 256 zero bytes appended behind three stray header bytes
    are replayed without error, as a record that nobody wrote.
   */
  lemma TornHeaderCanForgeARecord()
    ensures var torn := Log([[1, 2, 3, 4, 5]])[..3]; var b := Zeros(256);
      Torn([[1, 2, 3, 4, 5]], 3) == 3 && Parse(torn + Frame(b)) == Some([[1, 0, 0, 0, 0]])
  {
    var recs: seq<Record> := [[1, 2, 3, 4, 5]];
    var b := Zeros(256);
    ShortHeader(5);
    assert Log(recs)[..3] == [5, 0, 0];
    LongHeader();
    var bytes := Log(recs)[..3] + Frame(b);
    assert bytes == [5, 0, 0] + [0, 1, 0, 0] + b;
    assert bytes[..4] == [5, 0, 0, 0];
    LengthOfFour(bytes[..4]);
    var rest := bytes[4..];
    assert rest == [1, 0, 0] + b && rest[..5] == [1, 0, 0, 0, 0];
    assert rest[5..] == Zeros(254);
    ZerosAreSkipped(254);
    assert Parse(rest[5..]) == Some([]);
    assert [rest[..5]] + [] == [rest[..5]];
    assert Parse(bytes) == Prepend([rest[..5]], Parse(rest[5..]));
  }

  lemma LongHeader()
    ensures Header(256) == [0, 1, 0, 0]
  {
    assert LittleEndian(256, 4) == [0] + LittleEndian(1, 3) && LittleEndian(1, 3) == [1] + LittleEndian(0, 2);
  }

  /** Zero lengths are passed over. */
  lemma {:induction false} ZerosAreSkipped(n: nat)
    ensures Parse(Zeros(n)) == Some([])
  {
    if n >= 4 {
      var bytes := Zeros(n);
      LengthOfFour(bytes[..4]);
      assert bytes[4..] == Zeros(n - 4);
      ZerosAreSkipped(n - 4);
    }
  }

  /** A zero length in the middle of a log is passed over: what stands before and after it is read. */
  lemma ZeroLengthIsSkipped(recs: seq<Record>, more: seq<Byte>)
    requires forall i :: 0 <= i < |recs| ==> Loggable(recs[i])
    ensures Parse(Log(recs) + Zeros(4) + more) == Prepend(recs, Parse(more)) == Parse(Log(recs) + more)
  {
    hide Log, Prepend, Length;
    ParseLog(recs, Zeros(4) + more);
    ParseLog(recs, more);
    Reassociate(Log(recs), Zeros(4), more);
    var bytes := Zeros(4) + more;
    assert bytes[..4] == Zeros(4) && bytes[4..] == more;
    LengthOfFour(Zeros(4));
  }

  // ---------------------------------------------------------------- the log object

  /** What of a write reaches the file when the disk takes `disk` more bytes. */
  function Written(buf: seq<Byte>, disk: nat): (r: seq<Byte>)
    ensures r <= buf
  {
    if |buf| <= disk then buf else buf[..disk]
  }

  class Wal {
    var file: seq<Byte>
    var offset: nat
    var open: bool

    /** Open on a path whose file already holds `existing`. */
    constructor (existing: seq<Byte>)
      ensures open && file == existing && offset == 0
    {
      file, offset, open := existing, 0, true;
    }

    method Close()
      modifies this
      ensures !open && file == old(file)
    {
      open := false;
    }

    /**
      The file is opened for append, so writes go to its end wherever the offset is. `disk`
      is how many bytes the disk takes before a write fails.
     */
    method Append(b: Record, disk: nat) returns (ok: bool)
      modifies this
      ensures open == old(open)
      ensures ok <==> b == [] || (open && |Frame(b)| <= disk)
      ensures file == old(file) + if open then Written(Frame(b), disk) else []
    {
      if |b| == 0 {
        return true;
      }
      if !open {
        return false;
      }
      var buf := Header(|b|) + b;
      file := file + Written(buf, disk);
      offset := |file|;
      return |buf| <= disk;
    }

    /** io.ReadFull: n bytes from the offset, or an error with the rest consumed. */
    method ReadFull(n: nat) returns (r: Option<seq<Byte>>)
      requires offset <= |file|
      modifies this`offset
      ensures if old(offset) + n <= |file| then r == Some(file[old(offset)..old(offset) + n]) && offset == old(offset) + n
              else r == None && offset == |file|
    {
      if offset + n <= |file| {
        r := Some(file[offset..offset + n]);
        offset := offset + n;
      } else {
        r := None;
        offset := |file|;
      }
    }

    /** None is an error: the log is closed, or a payload is cut short. */
    method Replay() returns (r: Option<seq<Record>>)
      modifies this`offset
      ensures r == if open then Parse(file) else None
      ensures open ==> offset == |file|
    {
      if !open {
        return None;
      }
      offset := 0;
      var out: seq<Record> := [];
      assert file[0..] == file;
      PrependTwice([], [], Parse(file));
      while true
        invariant offset <= |file|
        invariant Parse(file) == Prepend(out, Parse(file[offset..]))
        decreases |file| - offset
      {
        ghost var left := file[offset..];
        var header := ReadFull(4);
        if header == None {
          assert Parse(left) == Some([]) && out + [] == out;
          break;
        }
        assert left[..4] == header.value && left[4..] == file[offset..];
        var n := Length(header.value);
        if n == 0 {
          continue;
        }
        ghost var rest := file[offset..];
        var buf := ReadFull(n);
        if buf == None {
          return None;
        }
        assert rest[..n] == buf.value;
        assert rest[n..] == file[offset..];
        PrependTwice(out, [buf.value], Parse(file[offset..]));
        out := out + [buf.value];
      }
      offset := |file|;
      return Some(out);
    }
  }
}
