/**
 * The backlog fetch command: pages backwards through the collection's
 * stored data in batches of at most 500 items, newest batch first, and
 * turns every item newer than the stop time into a Message for the
 * pipeline.
 *
 * The network is a given sequence of answers, one per request; the base64
 * and protobuf decoders are given functions. Instead of calling the
 * pipeline, the batch walk returns the messages it would publish, in
 * publishing order.
 */
module Fetch {
  import opened Types
  import opened Model
  import opened ModelUtil

  /** The largest batch the data API returns; a smaller one is the last. */
  const SpanMaxBatchSize: nat := 500

  const NanosPerSecond: int := 1_000_000_000
  const NanosPerMilli: int := 1_000_000

  // ---------------------------------------------------------------------
  // Time

  /** A Go time.Time as whole Unix seconds and the nanoseconds within that second. */
  datatype Time = Time(unixSec: int, nsec: int)

  /** A time whose Unix nanosecond count fits in an int64 (Go leaves UnixNano undefined otherwise). */
  predicate ValidTime(t: Time)
  {
    0 <= t.nsec < NanosPerSecond && -TWO_63 <= UnixNano(t) < TWO_63
  }

  function UnixNano(t: Time): int
  {
    t.unixSec * NanosPerSecond + t.nsec
  }

  /** timeToMilliseconds: UnixNano divided by 10^6, truncating toward zero as Go does. */
  function TimeToMilliseconds(t: Time): (ms: I64)
    requires ValidTime(t)
    ensures UnixNano(t) >= 0 ==> ms >= 0 && ms * NanosPerMilli <= UnixNano(t) < (ms + 1) * NanosPerMilli
    ensures UnixNano(t) < 0 ==> ms <= 0 && (ms - 1) * NanosPerMilli < UnixNano(t) <= ms * NanosPerMilli
  {
    GoDiv(UnixNano(t), NanosPerMilli)
  }

  /** millisecondsToTime: the whole seconds of `ms` (truncated toward zero), no nanoseconds. */
  function MillisecondsToTime(ms: I64): (t: Time)
    ensures t.nsec == 0
    ensures ms >= 0 ==> 0 <= ms - t.unixSec * 1000 < 1000
    ensures ms < 0 ==> -1000 < ms - t.unixSec * 1000 <= 0
  {
    Time(GoDiv(ms, 1000), 0)
  }

  /**
   * Converting milliseconds to a time and back drops the sub-second part,
   * toward zero; only whole seconds survive unchanged.
   */
  lemma MillisecondsRoundTrip(ms: I64)
    requires ValidTime(MillisecondsToTime(ms))
    ensures var back := TimeToMilliseconds(MillisecondsToTime(ms));
      && back == MillisecondsToTime(ms).unixSec * 1000
      && (back == ms <==> ms % 1000 == 0)
      && (ms >= 0 ==> back <= ms) && (ms < 0 ==> ms <= back)
  {
    var t := MillisecondsToTime(ms);
    assert UnixNano(t) == t.unixSec * 1000 * NanosPerMilli;
    var back := TimeToMilliseconds(t);
    assert back == t.unixSec * 1000;
  }

  /** Truncation, not flooring: one nanosecond before the epoch is millisecond 0, not -1. */
  lemma TimeToMillisecondsTruncates()
    ensures TimeToMilliseconds(Time(-1, NanosPerSecond - 1)) == 0
    ensures UnixNano(Time(-1, NanosPerSecond - 1)) / NanosPerMilli == -1
  {
  }

  /** A later time never gives fewer milliseconds. */
  lemma TimeToMillisecondsMonotonic(t1: Time, t2: Time)
    requires ValidTime(t1) && ValidTime(t2) && UnixNano(t1) <= UnixNano(t2)
    ensures TimeToMilliseconds(t1) <= TimeToMilliseconds(t2)
  {
  }

  // ---------------------------------------------------------------------
  // Decimal strings (strconv.ParseInt base 10 and fmt's %d)

  predicate IsDigit(c: char)
  {
    '0' <= c <= '9'
  }

  predicate AllDigits(s: string)
  {
    forall i :: 0 <= i < |s| ==> IsDigit(s[i])
  }

  /** The value of a string of decimal digits, most significant first. */
  function DecimalValue(s: string): nat
    requires AllDigits(s)
  {
    if s == [] then 0
    else DecimalValue(s[..|s| - 1]) * 10 + (s[|s| - 1] as int - '0' as int)
  }

  /**
   * strconv.ParseInt(s, 10, 64): an optional sign and at least one decimal
   * digit, with the value in the int64 range; anything else is an error.
   */
  function ParseInt(s: string): (r: Option<I64>)
    ensures r.Some? ==> s != [] && IsDigit(s[|s| - 1])
    ensures r.Some? ==> IsDigit(s[0]) || s[0] == '+' || s[0] == '-'
    ensures r.Some? && r.value < 0 ==> s[0] == '-'
    ensures r.Some? ==> forall i :: 0 < i < |s| ==> IsDigit(s[i])
  {
    if s == [] then None
    else
      var digits := if s[0] == '+' || s[0] == '-' then s[1..] else s;
      if digits == [] || !AllDigits(digits) then None
      else
        var v: int := if s[0] == '-' then -(DecimalValue(digits) as int) else DecimalValue(digits);
        if -TWO_63 <= v < TWO_63 then Some(v) else None
  }

  /**
   * An optional sign followed by decimal digits parses to its signed value
   * when that value fits in an int64, and fails otherwise.
   */
  lemma ParseIntDecimal(sign: string, digits: string)
    requires sign == "" || sign == "+" || sign == "-"
    requires digits != [] && AllDigits(digits)
    ensures var v := if sign == "-" then -(DecimalValue(digits) as int) else DecimalValue(digits) as int;
      ParseInt(sign + digits) == if -TWO_63 <= v < TWO_63 then Some(v) else None
  {
    var s := sign + digits;
    if sign == "" {
      assert s == digits;
      assert IsDigit(s[0]);
    } else {
      assert s[0] == sign[0];
      assert s[1..] == digits;
    }
  }

  /** The decimal digits of a natural number, without leading zeros. */
  function Digits(n: nat): (s: string)
    ensures s != [] && AllDigits(s)
    ensures |s| > 1 ==> s[0] != '0'
  {
    var d := ['0' + (n % 10) as char];
    if n < 10 then d else Digits(n / 10) + d
  }

  /** fmt.Sprintf("%d", n). */
  function FormatInt(n: int): (s: string)
    ensures s != []
    ensures n < 0 <==> s[0] == '-'
    ensures n >= 0 ==> AllDigits(s)
    ensures n < 0 ==> AllDigits(s[1..])
  {
    if n < 0 then "-" + Digits(-n) else Digits(n)
  }

  lemma {:induction false} DigitsValue(n: nat)
    ensures DecimalValue(Digits(n)) == n
  {
    var s := Digits(n);
    if n >= 10 {
      DigitsValue(n / 10);
      assert s[..|s| - 1] == Digits(n / 10);
    }
  }

  /** Parsing what %d printed gives the number back, for every int64. */
  lemma ParseFormatRoundTrip(n: I64)
    ensures ParseInt(FormatInt(n)) == Some(n)
  {
    var s := FormatInt(n);
    if n < 0 {
      var m: nat := -(n as int);
      DigitsValue(m);
      assert s == "-" + Digits(m);
      assert s[1..] == Digits(m);
    } else {
      DigitsValue(n);
      assert s == Digits(n);
      assert IsDigit(s[0]);
    }
  }

  /** Strings that are not numbers: the empty string, a lone sign, or any non-digit after the sign. */
  lemma ParseIntRejects(s: string)
    ensures ParseInt("") == None && ParseInt("-") == None && ParseInt("+") == None
    ensures (exists i :: 0 < i < |s| && !IsDigit(s[i])) ==> ParseInt(s) == None
  {
  }

  // ---------------------------------------------------------------------
  // reverse

  /** One item of collection data as the data API returns it. */
  datatype DataMessage = DataMessage(deviceId: string, received: string, payload: string)

  /** The zero value of the item type: the "previous batch" before any batch was seen. */
  const NoMessage: DataMessage := DataMessage("", "", "")

  /** The items in the opposite order. */
  function Reversed(s: seq<DataMessage>): (r: seq<DataMessage>)
    ensures |r| == |s|
  {
    if s == [] then [] else [s[|s| - 1]] + Reversed(s[..|s| - 1])
  }

  lemma {:induction false} ReversedIndex(s: seq<DataMessage>, i: nat)
    requires i < |s|
    ensures |Reversed(s)| == |s|
    ensures Reversed(s)[i] == s[|s| - 1 - i]
  {
    if i > 0 {
      ReversedIndex(s[..|s| - 1], i - 1);
    } else if |s| > 1 {
      ReversedIndex(s[..|s| - 1], 0);
    }
  }

  /** Reversing twice gives the items back. */
  lemma ReversedTwice(s: seq<DataMessage>)
    ensures Reversed(Reversed(s)) == s
  {
    if s != [] {
      ReversedIndex(s, 0);
      forall i | 0 <= i < |s|
        ensures |Reversed(Reversed(s))| == |s| && Reversed(Reversed(s))[i] == s[i]
      {
        ReversedIndex(s, |s| - 1 - i);
        ReversedIndex(Reversed(s), i);
      }
    }
  }

  /** A sequence that holds the items of `s` back to front is Reversed(s). */
  lemma ReversedByIndex(s: seq<DataMessage>, t: seq<DataMessage>)
    requires |t| == |s|
    requires forall k :: 0 <= k < |s| ==> t[k] == s[|s| - 1 - k]
    ensures t == Reversed(s)
  {
    var r := Reversed(s);
    if s != [] {
      ReversedIndex(s, 0);
    }
    assert |r| == |t|;
    forall k | 0 <= k < |s|
      ensures t[k] == r[k]
    {
      ReversedIndex(s, k);
    }
    assert t == r;
  }

  /** The swap loop of reverse: pairs are exchanged from the middle outwards. */
  method SwapHalves(a: array<DataMessage>)
    modifies a
    ensures a[..] == Reversed(old(a[..]))
  {
    ghost var orig := a[..];
    var n := a.Length;
    var i := n / 2 - 1;
    while i >= 0
      invariant -1 <= i <= n / 2 - 1
      invariant forall k :: i < k < n - 1 - i ==> a[k] == orig[n - 1 - k]
      invariant forall k :: 0 <= k <= i || n - 1 - i <= k < n ==> a[k] == orig[k]
    {
      var opp := n - 1 - i;
      a[i], a[opp] := a[opp], a[i];
      i := i - 1;
    }
    ReversedByIndex(orig, a[..]);
  }

  /**
   * reverse: copies the items into a new slice and reverses the copy; the
   * argument is not written.
   */
  method Reverse(s: array<DataMessage>) returns (a: array<DataMessage>)
    ensures fresh(a)
    ensures a[..] == Reversed(s[..])
  {
    a := new DataMessage[s.Length];
    forall k | 0 <= k < s.Length {
      a[k] := s[k];
    }
    assert a[..] == s[..];
    SwapHalves(a);
  }

  // ---------------------------------------------------------------------
  // One batch

  /** The bytes of a decoded payload; a Go slice length is an int. */
  type Bytes = b: seq<U8> | |b| < TWO_63

  /** The payload decoders: base64 to bytes, and bytes to a protobuf Sample. */
  datatype Decoder = Decoder(base64: string -> Option<Bytes>, unmarshal: Bytes -> Option<Sample>)

  /** What happens to one item of a batch. */
  datatype Fate =
    | Overlap            // the first item of the previous batch again: skipped
    | Limit              // at or before the stop time: the batch ends here
    | Undecodable        // the payload does not decode: skipped
    | Emit(m: Message)   // published

  predicate SameItem(a: DataMessage, b: DataMessage)
  {
    a.received == b.received && a.payload == b.payload
  }

  /** The item's receive time, or the current time when it does not parse. */
  function ReceivedMs(item: DataMessage, now: Time): (r: I64)
    requires ValidTime(now)
    ensures ParseInt(item.received).Some? ==> r == ParseInt(item.received).value
    ensures ParseInt(item.received).None? ==> r == TimeToMilliseconds(now)
  {
    match ParseInt(item.received)
    case Some(v) => v
    case None => TimeToMilliseconds(now)
  }

  /** The Message published for an item whose payload decoded to `sample`. */
  function MessageFor(item: DataMessage, sample: Sample, bytes: Bytes, received: I64): (m: Message)
    ensures m.deviceID == item.deviceId && m.receivedTime == received && m.packetSize == |bytes|
    ensures m.(deviceID := "", receivedTime := 0, packetSize := 0) == MessageFromProtobuf(sample)
  {
    MessageFromProtobuf(sample).(deviceID := item.deviceId, receivedTime := received, packetSize := |bytes|)
  }

  function ItemFate(item: DataMessage, last: DataMessage, stopAt: I64, now: Time, dec: Decoder): (f: Fate)
    requires ValidTime(now)
    ensures f == Overlap <==> SameItem(item, last)
    ensures f == Limit <==> !SameItem(item, last) && ReceivedMs(item, now) <= stopAt
  {
    if SameItem(item, last) then Overlap
    else
      var received := ReceivedMs(item, now);
      if received <= stopAt then Limit
      else match dec.base64(item.payload)
        case None => Undecodable
        case Some(bytes) =>
          match dec.unmarshal(bytes)
          case None => Undecodable
          case Some(sample) => Emit(MessageFor(item, sample, bytes, received))
  }

  /**
   * A new item past the stop time is undecodable exactly when its payload
   * is not base64 or not a protobuf Sample; otherwise its message is built
   * from the decoded sample and the payload's decoded size.
   */
  lemma ItemFateDecodes(item: DataMessage, last: DataMessage, stopAt: I64, now: Time, dec: Decoder)
    requires ValidTime(now)
    ensures var f := ItemFate(item, last, stopAt, now, dec);
      f == Undecodable <==>
        && !SameItem(item, last) && ReceivedMs(item, now) > stopAt
        && (dec.base64(item.payload).None? || dec.unmarshal(dec.base64(item.payload).value).None?)
    ensures var f := ItemFate(item, last, stopAt, now, dec);
      f.Emit? <==>
        && !SameItem(item, last) && ReceivedMs(item, now) > stopAt
        && dec.base64(item.payload).Some? && dec.unmarshal(dec.base64(item.payload).value).Some?
    ensures var f := ItemFate(item, last, stopAt, now, dec);
      f.Emit? ==>
        f.m == MessageFor(item, dec.unmarshal(dec.base64(item.payload).value).value,
                          dec.base64(item.payload).value, ReceivedMs(item, now))
  {
  }

  /** The messages a batch publishes, and whether it reached the stop time. */
  datatype BatchResult = BatchResult(published: seq<Message>, seenOldest: bool)

  /** Walks the items in the given order, up to and excluding the first Limit item. */
  function Walk(items: seq<DataMessage>, last: DataMessage, stopAt: I64, now: Time, dec: Decoder): (r: BatchResult)
    requires ValidTime(now)
    ensures |r.published| <= |items|
  {
    if items == [] then BatchResult([], false)
    else
      match ItemFate(items[0], last, stopAt, now, dec)
      case Limit => BatchResult([], true)
      case Emit(m) =>
        var rest := Walk(items[1..], last, stopAt, now, dec);
        BatchResult([m] + rest.published, rest.seenOldest)
      case _ => Walk(items[1..], last, stopAt, now, dec)
  }

  /** The oldest item is seen exactly when some item is at or before the stop time (and not the overlap). */
  lemma {:induction false} WalkSeenOldest(items: seq<DataMessage>, last: DataMessage, stopAt: I64, now: Time, dec: Decoder)
    requires ValidTime(now)
    ensures Walk(items, last, stopAt, now, dec).seenOldest <==>
      exists i :: 0 <= i < |items| && ItemFate(items[i], last, stopAt, now, dec) == Limit
  {
    if items != [] {
      WalkSeenOldest(items[1..], last, stopAt, now, dec);
      if ItemFate(items[0], last, stopAt, now, dec) != Limit {
        if i :| 0 <= i < |items| && ItemFate(items[i], last, stopAt, now, dec) == Limit {
          assert items[1..][i - 1] == items[i];
        }
      }
    }
  }

  /** Nothing after the first Limit item is published. */
  lemma {:induction false} WalkStopsAtFirstLimit(items: seq<DataMessage>, k: nat, last: DataMessage, stopAt: I64, now: Time, dec: Decoder)
    requires ValidTime(now) && k < |items|
    requires ItemFate(items[k], last, stopAt, now, dec) == Limit
    requires forall i :: 0 <= i < k ==> ItemFate(items[i], last, stopAt, now, dec) != Limit
    ensures Walk(items, last, stopAt, now, dec) == BatchResult(Walk(items[..k], last, stopAt, now, dec).published, true)
  {
    if k > 0 {
      assert items[1..][..k - 1] == items[..k][1..];
      WalkStopsAtFirstLimit(items[1..], k - 1, last, stopAt, now, dec);
    }
  }

  /**
   * Every published message comes from an item of the batch that is not the
   * previous batch's first item and was received after the stop time.
   */
  lemma {:induction false} WalkPublishesOnlyNew(items: seq<DataMessage>, last: DataMessage, stopAt: I64, now: Time, dec: Decoder, j: nat)
    requires ValidTime(now) && j < |Walk(items, last, stopAt, now, dec).published|
    ensures var m := Walk(items, last, stopAt, now, dec).published[j];
      m.receivedTime > stopAt &&
      exists i :: 0 <= i < |items| && !SameItem(items[i], last) && ItemFate(items[i], last, stopAt, now, dec) == Emit(m)
  {
    var w := Walk(items, last, stopAt, now, dec);
    var rest := Walk(items[1..], last, stopAt, now, dec);
    var f := ItemFate(items[0], last, stopAt, now, dec);
    var m := w.published[j];
    if f.Emit? && j == 0 {
      assert m == f.m;
    } else {
      var j' := if f.Emit? then j - 1 else j;
      assert f != Limit;
      assert m == rest.published[j'];
      WalkPublishesOnlyNew(items[1..], last, stopAt, now, dec, j');
      var i :| 0 <= i < |items[1..]| && !SameItem(items[1..][i], last) && ItemFate(items[1..][i], last, stopAt, now, dec) == Emit(m);
      assert items[1..][i] == items[i + 1];
    }
  }

  /** The messages of the items that decode to one, in batch order, as if nothing stopped the walk. */
  function Emitted(items: seq<DataMessage>, last: DataMessage, stopAt: I64, now: Time, dec: Decoder): seq<Message>
    requires ValidTime(now)
  {
    if items == [] then []
    else
      (match ItemFate(items[0], last, stopAt, now, dec) case Emit(m) => [m] case _ => [])
      + Emitted(items[1..], last, stopAt, now, dec)
  }

  /**
   * A batch publishes exactly the messages of the items before its first
   * stopping item (or of all items when none stops it), in batch order.
   */
  lemma {:induction false} WalkPublishesEmitted(items: seq<DataMessage>, k: nat, last: DataMessage,
                                               stopAt: I64, now: Time, dec: Decoder)
    requires ValidTime(now) && k <= |items|
    requires k < |items| ==> ItemFate(items[k], last, stopAt, now, dec) == Limit
    requires forall i :: 0 <= i < k ==> ItemFate(items[i], last, stopAt, now, dec) != Limit
    ensures Walk(items, last, stopAt, now, dec).published == Emitted(items[..k], last, stopAt, now, dec)
  {
    if k > 0 {
      var tail := items[1..];
      forall i | 0 <= i < k - 1
        ensures ItemFate(tail[i], last, stopAt, now, dec) != Limit
      {
        assert tail[i] == items[i + 1];
      }
      if k - 1 < |tail| {
        assert tail[k - 1] == items[k];
      }
      WalkPublishesEmitted(tail, k - 1, last, stopAt, now, dec);
      assert items[..k][1..] == tail[..k - 1];
    }
  }

  /** Every item before the first stopping item that decodes to a message has that message published. */
  lemma {:induction false} WalkPublishesEveryNew(items: seq<DataMessage>, k: nat, last: DataMessage,
                                                stopAt: I64, now: Time, dec: Decoder)
    requires ValidTime(now) && k < |items|
    requires ItemFate(items[k], last, stopAt, now, dec).Emit?
    requires forall i :: 0 <= i < k ==> ItemFate(items[i], last, stopAt, now, dec) != Limit
    ensures ItemFate(items[k], last, stopAt, now, dec).m in Walk(items, last, stopAt, now, dec).published
  {
    if k > 0 {
      var tail := items[1..];
      assert tail[k - 1] == items[k];
      forall i | 0 <= i < k - 1
        ensures ItemFate(tail[i], last, stopAt, now, dec) != Limit
      {
        assert tail[i] == items[i + 1];
      }
      WalkPublishesEveryNew(tail, k - 1, last, stopAt, now, dec);
    }
  }

  /** A skipped item (the overlap, or one that does not decode) can be removed without changing the batch's outcome. */
  lemma {:induction false} WalkIgnoresSkipped(items: seq<DataMessage>, k: nat, last: DataMessage, stopAt: I64, now: Time, dec: Decoder)
    requires ValidTime(now) && k < |items|
    requires ItemFate(items[k], last, stopAt, now, dec) in {Overlap, Undecodable}
    ensures Walk(items, last, stopAt, now, dec) == Walk(items[..k] + items[k + 1..], last, stopAt, now, dec)
  {
    var shorter := items[..k] + items[k + 1..];
    if k > 0 {
      WalkIgnoresSkipped(items[1..], k - 1, last, stopAt, now, dec);
      assert shorter[0] == items[0];
      assert shorter[1..] == items[1..][..k - 1] + items[1..][k..];
    } else {
      assert shorter == items[1..];
    }
  }

  /** One step of the walk, from item `i` on. */
  lemma WalkFrom(items: seq<DataMessage>, i: nat, last: DataMessage, stopAt: I64, now: Time, dec: Decoder)
    requires ValidTime(now) && i < |items|
    ensures var rest := Walk(items[i + 1..], last, stopAt, now, dec);
      Walk(items[i..], last, stopAt, now, dec) ==
        match ItemFate(items[i], last, stopAt, now, dec)
        case Limit => BatchResult([], true)
        case Emit(m) => BatchResult([m] + rest.published, rest.seenOldest)
        case _ => rest
  {
    assert items[i..][1..] == items[i + 1..];
  }

  /**
   * The body of the inner loop for one item: the overlap test, the receive
   * time (the current time when it does not parse), the stop test, then the
   * two decoding steps and the Message built from the sample.
   */
  method HandleItem(item: DataMessage, last: DataMessage, stopAt: I64, now: Time, dec: Decoder) returns (fate: Fate)
    requires ValidTime(now)
    ensures fate == ItemFate(item, last, stopAt, now, dec)
  {
    if item.received == last.received && item.payload == last.payload {
      return Overlap;
    }
    var received: I64;
    match ParseInt(item.received) {
      case Some(v) => received := v;
      case None => received := TimeToMilliseconds(now);
    }
    if received <= stopAt {
      return Limit;
    }
    var bytes := dec.base64(item.payload);
    if bytes.None? {
      return Undecodable;
    }
    var pb := dec.unmarshal(bytes.value);
    if pb.None? {
      return Undecodable;
    }
    var message := MessageFromProtobuf(pb.value);
    message := message.(deviceID := item.deviceId);
    message := message.(receivedTime := received);
    message := message.(packetSize := |bytes.value|);
    return Emit(message);
  }

  /** `p` published ahead of what the walk `r` publishes. */
  function After(p: seq<Message>, r: BatchResult): BatchResult
  {
    BatchResult(p + r.published, r.seenOldest)
  }

  /**
   * The inner loop of the fetch command over one batch: reverse it (the
   * oldest item is first in the answer), skip the previous batch's first
   * item, stop at the first item at or before the stop time, skip items
   * that do not decode, and publish the rest.
   */
  method ProcessBatch(items: seq<DataMessage>, last: DataMessage, stopAt: I64, now: Time, dec: Decoder)
      returns (published: seq<Message>, seenOldest: bool)
    requires ValidTime(now)
    ensures BatchResult(published, seenOldest) == Walk(Reversed(items), last, stopAt, now, dec)
  {
    var data := new DataMessage[|items|](k requires 0 <= k < |items| => items[k]);
    assert data[..] == items;
    var rev := Reverse(data);
    var all := rev[..];
    published, seenOldest := [], false;
    var i := 0;
    while i < |all|
      invariant 0 <= i <= |all|
      invariant Walk(all, last, stopAt, now, dec) == After(published, Walk(all[i..], last, stopAt, now, dec))
    {
      WalkFrom(all, i, last, stopAt, now, dec);
      var fate := HandleItem(all[i], last, stopAt, now, dec);
      match fate {
        case Limit =>
          seenOldest := true;
          break;
        case Emit(message) =>
          ghost var rest := Walk(all[i + 1..], last, stopAt, now, dec);
          assert published + ([message] + rest.published) == (published + [message]) + rest.published;
          published := published + [message];
        case _ =>
      }
      i := i + 1;
    }
    if !seenOldest {
      assert all[i..] == [];
    }
  }

  // ---------------------------------------------------------------------
  // The batch loop

  /** How the fetch loop ends. */
  datatype Outcome =
    | Done             // a short batch, or the stop time reached
    | Failed(error: Error)  // the data API call failed
    | EmptyBatch       // an empty answer: indexing its first item panics in the source
    | OutOfAnswers     // the given answers ran out before the loop ended

  /** The request End values sent, the messages published, and how the loop ended. */
  datatype Run = Run(requests: seq<string>, published: seq<Message>, outcome: Outcome)

  /**
   * The loop from the request with End `end` on, the previous batch's
   * first item being `last`: each answer is one batch, oldest item first;
   * the next request ends at the received time of this batch's oldest item.
   */
  function FetchFrom(answers: seq<Result<seq<DataMessage>>>, end: string, last: DataMessage,
                     stopAt: I64, now: Time, dec: Decoder): (r: Run)
    requires ValidTime(now)
    ensures |r.requests| <= |answers|
    ensures r.requests != [] ==> r.requests[0] == end
    decreases |answers|
  {
    if answers == [] then Run([], [], OutOfAnswers)
    else match answers[0]
      case Err(e) => Run([end], [], Failed(e))
      case Ok(items) =>
        if items == [] then Run([end], [], EmptyBatch)
        else
          var b := Walk(Reversed(items), last, stopAt, now, dec);
          if b.seenOldest || |items| < SpanMaxBatchSize then Run([end], b.published, Done)
          else
            var rest := FetchFrom(answers[1..], items[0].received, items[0], stopAt, now, dec);
            Run([end] + rest.requests, b.published + rest.published, rest.outcome)
  }

  /** The first item of the batch before batch `k`: what batch `k` treats as the overlap. */
  function PreviousFirst(answers: seq<Result<seq<DataMessage>>>, k: nat, last: DataMessage): DataMessage
    requires k < |answers|
  {
    if k == 0 then last
    else if answers[k - 1].Ok? && answers[k - 1].value != [] then answers[k - 1].value[0]
    else NoMessage
  }

  /** Batch `k` is a full batch that did not reach the stop time, so another request follows it. */
  predicate Continues(answers: seq<Result<seq<DataMessage>>>, k: nat, last: DataMessage, stopAt: I64, now: Time, dec: Decoder)
    requires ValidTime(now) && k < |answers|
  {
    && answers[k].Ok? && |answers[k].value| >= SpanMaxBatchSize
    && !Walk(Reversed(answers[k].value), PreviousFirst(answers, k, last), stopAt, now, dec).seenOldest
  }

  /** Batch `k` ends the loop: a short batch, or one that reached the stop time. */
  predicate Ends(answers: seq<Result<seq<DataMessage>>>, k: nat, last: DataMessage, stopAt: I64, now: Time, dec: Decoder)
    requires ValidTime(now) && k < |answers|
  {
    && answers[k].Ok? && answers[k].value != []
    && (|answers[k].value| < SpanMaxBatchSize
        || Walk(Reversed(answers[k].value), PreviousFirst(answers, k, last), stopAt, now, dec).seenOldest)
  }

  /** Dropping the first answer shifts every batch's position, and its predecessor, by one. */
  lemma ShiftBatches(answers: seq<Result<seq<DataMessage>>>, last: DataMessage, stopAt: I64, now: Time, dec: Decoder)
    requires ValidTime(now) && answers != [] && answers[0].Ok? && answers[0].value != []
    ensures forall k :: 0 < k < |answers| ==>
      && (Continues(answers[1..], k - 1, answers[0].value[0], stopAt, now, dec) <==> Continues(answers, k, last, stopAt, now, dec))
      && (Ends(answers[1..], k - 1, answers[0].value[0], stopAt, now, dec) <==> Ends(answers, k, last, stopAt, now, dec))
  {
    var tail := answers[1..];
    forall k | 0 < k < |answers|
      ensures Continues(tail, k - 1, answers[0].value[0], stopAt, now, dec) <==> Continues(answers, k, last, stopAt, now, dec)
      ensures Ends(tail, k - 1, answers[0].value[0], stopAt, now, dec) <==> Ends(answers, k, last, stopAt, now, dec)
    {
      assert tail[k - 1] == answers[k];
      assert PreviousFirst(tail, k - 1, answers[0].value[0]) == PreviousFirst(answers, k, last);
    }
  }

  /**
   * The loop only goes on past full batches that did not reach the stop
   * time, and each request after the first ends at the received time of
   * the previous batch's oldest item.
   */
  lemma {:induction false} FetchContinuesPastFullBatches(answers: seq<Result<seq<DataMessage>>>, end: string,
                                                        last: DataMessage, stopAt: I64, now: Time, dec: Decoder)
    requires ValidTime(now)
    ensures var r := FetchFrom(answers, end, last, stopAt, now, dec);
      && (forall k :: 0 <= k < |r.requests| - 1 ==> Continues(answers, k, last, stopAt, now, dec))
      && (forall j :: 0 <= j < |r.requests| - 1 ==>
           answers[j].Ok? && answers[j].value != [] && r.requests[j + 1] == answers[j].value[0].received)
  {
    if answers != [] && answers[0].Ok? && answers[0].value != [] {
      var items := answers[0].value;
      var b := Walk(Reversed(items), last, stopAt, now, dec);
      if !(b.seenOldest || |items| < SpanMaxBatchSize) {
        var r' := FetchFrom(answers[1..], items[0].received, items[0], stopAt, now, dec);
        FetchContinuesPastFullBatches(answers[1..], items[0].received, items[0], stopAt, now, dec);
        ShiftBatches(answers, last, stopAt, now, dec);
        var r := FetchFrom(answers, end, last, stopAt, now, dec);
        assert r.requests == [end] + r'.requests;
        assert Continues(answers, 0, last, stopAt, now, dec);
        forall j | 0 <= j < |r.requests| - 1
          ensures answers[j].Ok? && answers[j].value != [] && r.requests[j + 1] == answers[j].value[0].received
        {
          assert r.requests[j + 1] == r'.requests[j];
          if j > 0 {
            assert answers[1..][j - 1] == answers[j];
          }
        }
      }
    }
  }

  /**
   * A run completes exactly when its last batch was short or reached the
   * stop time; a run that used up every answer made one request per answer.
   */
  lemma {:induction false} FetchEndsAtLastBatch(answers: seq<Result<seq<DataMessage>>>, end: string,
                                               last: DataMessage, stopAt: I64, now: Time, dec: Decoder)
    requires ValidTime(now)
    ensures var r := FetchFrom(answers, end, last, stopAt, now, dec);
      && (r.outcome == Done <==> r.requests != [] && Ends(answers, |r.requests| - 1, last, stopAt, now, dec))
      && (r.outcome == OutOfAnswers ==> |r.requests| == |answers|)
  {
    if answers != [] && answers[0].Ok? && answers[0].value != [] {
      var items := answers[0].value;
      var b := Walk(Reversed(items), last, stopAt, now, dec);
      if !(b.seenOldest || |items| < SpanMaxBatchSize) {
        var r' := FetchFrom(answers[1..], items[0].received, items[0], stopAt, now, dec);
        FetchEndsAtLastBatch(answers[1..], items[0].received, items[0], stopAt, now, dec);
        ShiftBatches(answers, last, stopAt, now, dec);
        assert FetchFrom(answers, end, last, stopAt, now, dec).requests == [end] + r'.requests;
        assert !Ends(answers, 0, last, stopAt, now, dec);
      }
    }
  }

  /** One answered batch of a run: what the run is made of after it. */
  lemma FetchStep(answers: seq<Result<seq<DataMessage>>>, end: string, last: DataMessage,
                  stopAt: I64, now: Time, dec: Decoder)
    requires ValidTime(now) && answers != []
    ensures answers[0].Err? ==> FetchFrom(answers, end, last, stopAt, now, dec) == Run([end], [], Failed(answers[0].error))
    ensures answers[0] == Ok([]) ==> FetchFrom(answers, end, last, stopAt, now, dec) == Run([end], [], EmptyBatch)
    ensures answers[0].Ok? && answers[0].value != [] ==>
      var items := answers[0].value;
      var b := Walk(Reversed(items), last, stopAt, now, dec);
      FetchFrom(answers, end, last, stopAt, now, dec) ==
        if b.seenOldest || |items| < SpanMaxBatchSize then Run([end], b.published, Done)
        else Then([end], b.published, FetchFrom(answers[1..], items[0].received, items[0], stopAt, now, dec))
  {
  }

  /** `requests` and `published` from earlier iterations, ahead of the rest of the run. */
  function Then(requests: seq<string>, published: seq<Message>, r: Run): Run
  {
    Run(requests + r.requests, published + r.published, r.outcome)
  }

  /** A failed or empty answer, seen from the loop: the run ends with that request. */
  lemma FetchAdvanceEnds(answers: seq<Result<seq<DataMessage>>>, end: string, last: DataMessage,
                         stopAt: I64, now: Time, dec: Decoder, requests: seq<string>, published: seq<Message>)
    requires ValidTime(now) && answers != []
    ensures answers[0].Err? ==>
      Then(requests, published, FetchFrom(answers, end, last, stopAt, now, dec))
        == Run(requests + [end], published, Failed(answers[0].error))
    ensures answers[0] == Ok([]) ==>
      Then(requests, published, FetchFrom(answers, end, last, stopAt, now, dec))
        == Run(requests + [end], published, EmptyBatch)
  {
    FetchStep(answers, end, last, stopAt, now, dec);
  }

  /**
   * A walked batch, seen from the loop: the run ahead of the requests and
   * messages so far ends here or goes on with the next answer.
   */
  lemma FetchAdvanceBatch(answers: seq<Result<seq<DataMessage>>>, end: string, last: DataMessage,
                          stopAt: I64, now: Time, dec: Decoder,
                          requests: seq<string>, published: seq<Message>, batch: seq<Message>, seenOldest: bool)
    requires ValidTime(now) && answers != [] && answers[0].Ok? && answers[0].value != []
    requires BatchResult(batch, seenOldest) == Walk(Reversed(answers[0].value), last, stopAt, now, dec)
    ensures seenOldest || |answers[0].value| < SpanMaxBatchSize ==>
      Then(requests, published, FetchFrom(answers, end, last, stopAt, now, dec))
        == Run(requests + [end], published + batch, Done)
    ensures !(seenOldest || |answers[0].value| < SpanMaxBatchSize) ==>
      var items := answers[0].value;
      Then(requests, published, FetchFrom(answers, end, last, stopAt, now, dec))
        == Then(requests + [end], published + batch, FetchFrom(answers[1..], items[0].received, items[0], stopAt, now, dec))
  {
    var items := answers[0].value;
    var r := FetchFrom(answers, end, last, stopAt, now, dec);
    FetchStep(answers, end, last, stopAt, now, dec);
    if seenOldest || |items| < SpanMaxBatchSize {
      assert r == Run([end], batch, Done);
    } else {
      var rest := FetchFrom(answers[1..], items[0].received, items[0], stopAt, now, dec);
      assert r == Then([end], batch, rest);
      assert requests + ([end] + rest.requests) == requests + [end] + rest.requests;
      assert published + (batch + rest.published) == published + batch + rest.published;
    }
  }

  /**
   * The fetch command's batch loop. The first request ends at the current
   * time in whole milliseconds; each answer is walked by ProcessBatch; the
   * loop stops after a batch that reached the stop time or was short.
   */
  method FetchBacklog(answers: seq<Result<seq<DataMessage>>>, stopAt: I64, now: Time, dec: Decoder)
      returns (requests: seq<string>, published: seq<Message>, outcome: Outcome)
    requires ValidTime(now)
    ensures Run(requests, published, outcome) ==
      FetchFrom(answers, FormatInt(now.unixSec * 1000), NoMessage, stopAt, now, dec)
  {
    ghost var run := FetchFrom(answers, FormatInt(now.unixSec * 1000), NoMessage, stopAt, now, dec);
    var lastReceived := FormatInt(now.unixSec * 1000);
    var firstItemOfLastBatch := NoMessage;
    requests, published := [], [];
    var k := 0;
    while true
      invariant 0 <= k <= |answers|
      invariant run == Then(requests, published, FetchFrom(answers[k..], lastReceived, firstItemOfLastBatch, stopAt, now, dec))
      decreases |answers| - k
    {
      if k == |answers| {
        outcome := OutOfAnswers;
        return;
      }
      ghost var remaining := answers[k..];
      assert remaining[0] == answers[k] && remaining[1..] == answers[k + 1..];
      var answer := answers[k];
      if answer.Err? {
        FetchAdvanceEnds(remaining, lastReceived, firstItemOfLastBatch, stopAt, now, dec, requests, published);
        requests := requests + [lastReceived];
        outcome := Failed(answer.error);
        return;
      }
      var items := answer.value;
      if items == [] {
        FetchAdvanceEnds(remaining, lastReceived, firstItemOfLastBatch, stopAt, now, dec, requests, published);
        requests := requests + [lastReceived];
        outcome := EmptyBatch;
        return;
      }
      var batch, seenOldest := ProcessBatch(items, firstItemOfLastBatch, stopAt, now, dec);
      FetchAdvanceBatch(remaining, lastReceived, firstItemOfLastBatch, stopAt, now, dec, requests, published, batch, seenOldest);
      requests := requests + [lastReceived];
      published := published + batch;
      k := k + 1;
      if seenOldest || |items| < SpanMaxBatchSize {
        outcome := Done;
        return;
      }
      lastReceived := items[0].received;
      firstItemOfLastBatch := items[0];
    }
  }
}
