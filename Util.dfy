/** The little-endian `struct` codecs of the multiplayer protocol
    (`pyos/util.py`): ids, game types, challenge status and results,
    leaderboard entries, accept messages, day deals and password hashes.
    A `struct.error` is re-raised as `ValueError` throughout. */
module Util {
  import opened Outcomes
  import Py

  /** One byte of a `bytes` object. */
  type Byte = b: int | 0 <= b < 256

  /** Size of a SHA3-384 digest in bytes. */
  const HashSize: nat := 48

  /** Number of 32-bit words a hash is written as. */
  const HashWords: nat := HashSize / 4

  const UInt32Limit: nat := 0x1_0000_0000

  function Pow256(n: nat): (p: nat)
    ensures p >= 1
  {
    if n == 0 then 1 else 256 * Pow256(n - 1)
  }

  /** The `n`-byte little-endian encoding of `x`. */
  function LE(x: nat, n: nat): (bs: seq<Byte>)
    requires x < Pow256(n)
    ensures |bs| == n
  {
    if n == 0 then [] else [x % 256] + LE(x / 256, n - 1)
  }

  /** The unsigned little-endian value of `bs`. */
  function Unpack(bs: seq<Byte>): (x: nat)
    ensures x < Pow256(|bs|)
  {
    if bs == [] then 0
    else
      var rest := Unpack(bs[1..]);
      assert bs[0] + 256 * rest < 256 * (rest + 1) <= 256 * Pow256(|bs| - 1);
      bs[0] + 256 * rest
  }

  /** Reading back an encoding gives the number. */
  lemma {:induction false} UnpackLE(x: nat, n: nat)
    requires x < Pow256(n)
    ensures Unpack(LE(x, n)) == x
  {
    if n > 0 {
      UnpackLE(x / 256, n - 1);
      assert LE(x, n)[1..] == LE(x / 256, n - 1);
    }
  }

  /** Encoding a value read from `bs` gives `bs` back. */
  lemma {:induction false} LEUnpack(bs: seq<Byte>)
    ensures LE(Unpack(bs), |bs|) == bs
  {
    if bs != [] {
      LEUnpack(bs[1..]);
      assert Unpack(bs) / 256 == Unpack(bs[1..]);
    }
  }

  /** `struct.pack` of the Python value `v` as an `n`-byte unsigned integer:
      anything but an integer in range is a `ValueError`. */
  function PackValue(v: Py.Value, n: nat): (r: Result<seq<Byte>>)
    ensures r.Ok? <==> Py.IsInt(v) && 0 <= Py.IntOf(v) < Pow256(n)
    ensures r.Err? ==> r.error == ValueError
    ensures r.Ok? ==> |r.value| == n && Unpack(r.value) == Py.IntOf(v)
  {
    if Py.IsInt(v) && 0 <= Py.IntOf(v) < Pow256(n) then
      UnpackLE(Py.IntOf(v), n);
      Ok(LE(Py.IntOf(v), n))
    else Err(ValueError)
  }

  /** `struct.pack` of the integer `x` as an `n`-byte unsigned integer. */
  function PackUInt(x: int, n: nat): (r: Result<seq<Byte>>)
    ensures r.Ok? <==> 0 <= x < Pow256(n)
    ensures r.Err? ==> r.error == ValueError
    ensures r.Ok? ==> |r.value| == n && Unpack(r.value) == x
  {
    PackValue(Py.Int(x), n)
  }

  /** The chunks of `cs` one after another. */
  function Concat<X>(cs: seq<seq<X>>): seq<X> {
    if cs == [] then [] else cs[0] + Concat(cs[1..])
  }

  /** The length of `n` chunks of `k` items: `k * n`, spelt out so that
      the lemmas about chunks stay linear. */
  function Span(k: nat, n: nat): (m: nat)
    ensures m == k * n
  {
    if n == 0 then 0 else Span(k, n - 1) + k
  }

  /** Chunks of `k` items each: chunk `i` sits at offset `k * i`. */
  lemma {:induction false} ConcatWindow<X>(cs: seq<seq<X>>, k: nat, i: nat)
    requires forall j :: 0 <= j < |cs| ==> |cs[j]| == k
    requires i < |cs|
    ensures |Concat(cs)| == Span(k, |cs|)
    ensures Span(k, i) + k <= |Concat(cs)| && Concat(cs)[Span(k, i)..Span(k, i) + k] == cs[i]
  {
    ConcatLength(cs, k);
    if i > 0 {
      ConcatWindow(cs[1..], k, i - 1);
      SpanFront(k, i);
      assert Concat(cs)[k..] == Concat(cs[1..]);
    }
  }

  lemma {:induction false} ConcatLength<X>(cs: seq<seq<X>>, k: nat)
    requires forall j :: 0 <= j < |cs| ==> |cs[j]| == k
    ensures |Concat(cs)| == Span(k, |cs|)
  {
    if cs != [] {
      ConcatLength(cs[1..], k);
      SpanFront(k, |cs|);
    }
  }

  /** The first chunk can be split off at the front as well. */
  lemma {:induction false} SpanFront(k: nat, n: nat)
    requires n > 0
    ensures Span(k, n) == k + Span(k, n - 1)
  {
  }

  /** The first `n` consecutive `k`-item windows of `s`. */
  function Windows<X>(s: seq<X>, k: nat, n: nat): (ws: seq<seq<X>>)
    requires Span(k, n) <= |s|
    ensures |ws| == n
  {
    if n == 0 then []
    else
      SpanFront(k, n);
      [s[..k]] + Windows(s[k..], k, n - 1)
  }

  /** Window `i` starts at offset `k * i`. */
  lemma {:induction false} WindowAt<X>(s: seq<X>, k: nat, n: nat, i: nat)
    requires Span(k, n) <= |s| && i < n
    ensures Span(k, i) + k <= |s| && Windows(s, k, n)[i] == s[Span(k, i)..Span(k, i) + k]
  {
    SpanFront(k, n);
    if i > 0 {
      var t := s[k..];
      WindowAt(t, k, n - 1, i - 1);
      SpanFront(k, i);
      var j := Span(k, i - 1);
      assert Windows(s, k, n)[i] == Windows(t, k, n - 1)[i - 1];
      assert t[j..j + k] == s[k + j..k + j + k];
    }
  }

  /** Cutting `s` into `n` windows of `k` and joining them gives it back. */
  lemma {:induction false} ConcatWindows<X>(s: seq<X>, k: nat, n: nat)
    requires |s| == Span(k, n)
    ensures Concat(Windows(s, k, n)) == s
  {
    if n > 0 {
      SpanFront(k, n);
      ConcatWindows(s[k..], k, n - 1);
      assert s == s[..k] + s[k..];
    }
  }

  // ---------------------------------------------------------------- ids

  /** `encode_id(idx)`: the id as a little-endian `uint32`. */
  function EncodeId(idx: int): (r: Result<seq<Byte>>)
    ensures r.Ok? <==> 0 <= idx < UInt32Limit
    ensures r.Err? ==> r.error == ValueError
    ensures r.Ok? ==> |r.value| == 4
  {
    PackUInt(idx, 4)
  }

  /** `parse_id(data)`: exactly four bytes, read as a little-endian
      `uint32`. */
  function ParseId(data: seq<Byte>): (r: Result<nat>)
    ensures r.Ok? <==> |data| == 4
    ensures r.Err? ==> r.error == ValueError
    ensures r.Ok? ==> r.value < UInt32Limit
  {
    if |data| != 4 then Err(ValueError) else Ok(Unpack(data))
  }

  /** Every id in range survives encoding and parsing. */
  lemma IdRoundTrip(idx: int)
    requires 0 <= idx < UInt32Limit
    ensures ParseId(EncodeId(idx).value) == Ok(idx)
  {
  }

  /** Every four bytes survive parsing and encoding. */
  lemma IdBytesRoundTrip(data: seq<Byte>)
    requires |data| == 4
    ensures EncodeId(ParseId(data).value) == Ok(data)
  {
    LEUnpack(data);
  }

  // ------------------------------------------------- nibble-packed bytes

  /** `val >> 4` for a byte. */
  function High(v: Byte): (h: nat)
    ensures h < 16 && 16 * h <= v < 16 * h + 16
  {
    v / 16
  }

  /** `val - (val >> 4 << 4)` for a byte. */
  function Low(v: Byte): (l: nat)
    ensures l < 16 && v == l + 16 * High(v)
  {
    v - 16 * High(v)
  }

  /** `struct.pack('<B', low + (high << 4))`; Python's `<<` multiplies by
      16 for negative operands too. */
  function PackNibbles(low: int, high: int): (r: Result<seq<Byte>>)
    ensures r.Ok? <==> 0 <= low + 16 * high < 256
    ensures r.Err? ==> r.error == ValueError
    ensures r.Ok? ==> r.value == [low + 16 * high]
  {
    PackUInt(low + 16 * high, 1)
  }

  lemma NibblesRoundTrip(low: int, high: int)
    requires 0 <= low < 16 && 0 <= high < 16
    ensures PackNibbles(low, high).Ok?
    ensures Low(PackNibbles(low, high).value[0]) == low && High(PackNibbles(low, high).value[0]) == high
  {
  }

  datatype GameType = GameType(draw: int, score: int)

  /** `parse_game_type(b)`: one byte; the draw count is the low nibble and
      the score type the high one. */
  function ParseGameType(b: seq<Byte>): (r: Result<GameType>)
    ensures r.Ok? <==> |b| == 1
    ensures r.Err? ==> r.error == ValueError
    ensures r.Ok? ==> 0 <= r.value.draw < 16 && 0 <= r.value.score < 16
    ensures r.Ok? ==> b[0] == r.value.draw + 16 * r.value.score
  {
    if |b| != 1 then Err(ValueError) else Ok(GameType(Low(b[0]), High(b[0])))
  }

  /** `encode_game_type(draw, score)`. */
  function EncodeGameType(draw: int, score: int): (r: Result<seq<Byte>>)
    ensures r.Ok? <==> 0 <= draw + 16 * score < 256
    ensures r.Err? ==> r.error == ValueError
  {
    PackNibbles(draw, score)
  }

  /** Draw counts and score types below 16 survive encoding and parsing. */
  lemma GameTypeRoundTrip(draw: int, score: int)
    requires 0 <= draw < 16 && 0 <= score < 16
    ensures EncodeGameType(draw, score).Ok?
    ensures ParseGameType(EncodeGameType(draw, score).value) == Ok(GameType(draw, score))
  {
    NibblesRoundTrip(draw, score);
  }

  /** Every game-type byte survives parsing and encoding. */
  lemma GameTypeBytesRoundTrip(b: seq<Byte>)
    requires |b| == 1
    ensures EncodeGameType(ParseGameType(b).value.draw, ParseGameType(b).value.score) == Ok(b)
  {
    var g := ParseGameType(b).value;
    assert b == [b[0]];
    assert PackNibbles(g.draw, g.score).value == [b[0]];
  }

  /** The encoder does not check its fields: a draw count of 16 or more
      spills into the score nibble. */
  lemma GameTypeSpills(draw: int, score: int)
    ensures EncodeGameType(draw + 16, score) == EncodeGameType(draw, score + 1)
  {
  }

  datatype ChallengeResult = ChallengeResult(user: int, other: int)

  /** `parse_challenge_result(data)`: one byte; the user's result is the low
      nibble, the other player's the high one. */
  function ParseChallengeResult(data: seq<Byte>): (r: Result<ChallengeResult>)
    ensures r.Ok? <==> |data| == 1
    ensures r.Err? ==> r.error == ValueError
    ensures r.Ok? ==> 0 <= r.value.user < 16 && 0 <= r.value.other < 16
    ensures r.Ok? ==> data[0] == r.value.user + 16 * r.value.other
  {
    if |data| != 1 then Err(ValueError) else Ok(ChallengeResult(Low(data[0]), High(data[0])))
  }

  /** `encode_challenge_result((user, other))`. */
  function EncodeChallengeResult(res: ChallengeResult): (r: Result<seq<Byte>>)
    ensures r.Ok? <==> 0 <= res.user + 16 * res.other < 256
    ensures r.Err? ==> r.error == ValueError
  {
    PackNibbles(res.user, res.other)
  }

  lemma ChallengeResultRoundTrip(res: ChallengeResult)
    requires 0 <= res.user < 16 && 0 <= res.other < 16
    ensures EncodeChallengeResult(res).Ok?
    ensures ParseChallengeResult(EncodeChallengeResult(res).value) == Ok(res)
  {
    NibblesRoundTrip(res.user, res.other);
  }

  // ---------------------------------------------------- challenge status

  datatype ChallengeStatus = ChallengeStatus(challengeId: nat, waiting: bool, roundNo: int, rounds: int, userId: nat)

  /** The status byte: bit 0 waiting, bits 1-3 the round number, the high
      nibble the number of rounds. */
  function StatusByte(waiting: bool, roundNo: int, rounds: int): int {
    (if waiting then 1 else 0) + 2 * roundNo + 16 * rounds
  }

  /** `parse_challenge_status(data)`: a `uint32` challenge id, the status
      byte and a `uint32` user id, nine bytes in all. */
  function ParseChallengeStatus(data: seq<Byte>): (r: Result<ChallengeStatus>)
    ensures r.Ok? <==> |data| == 9
    ensures r.Err? ==> r.error == ValueError
    ensures r.Ok? ==> var c := r.value;
      0 <= c.roundNo < 8 && 0 <= c.rounds < 16 &&
      data[4] == StatusByte(c.waiting, c.roundNo, c.rounds) &&
      Unpack(data[..4]) == c.challengeId && Unpack(data[5..]) == c.userId
  {
    if |data| != 9 then Err(ValueError)
    else
      var status := data[4];
      var rounds := High(status);
      var rest := Low(status);
      var roundNo := rest / 2;
      Ok(ChallengeStatus(Unpack(data[..4]), rest - 2 * roundNo > 0, roundNo, rounds, Unpack(data[5..])))
  }

  /** `encode_challenge_status(challenge_id, waiting, roundno, rounds)`: the
      challenge id and the status byte, five bytes. */
  function EncodeChallengeStatus(challengeId: int, waiting: bool, roundNo: int, rounds: int): (r: Result<seq<Byte>>)
    ensures r.Ok? <==> 0 <= challengeId < UInt32Limit && 0 <= StatusByte(waiting, roundNo, rounds) < 256
    ensures r.Err? ==> r.error == ValueError
    ensures r.Ok? ==> |r.value| == 5
  {
    match PackUInt(challengeId, 4)
    case Err(e) => Err(e)
    case Ok(id) =>
      match PackUInt(StatusByte(waiting, roundNo, rounds), 1)
      case Err(e) => Err(e)
      case Ok(st) => Ok(id + st)
  }

  /** A status with fewer than 8 rounds played and fewer than 16 rounds in
      all, followed by a user id, parses back to its fields. */
  lemma ChallengeStatusRoundTrip(challengeId: int, waiting: bool, roundNo: int, rounds: int, userId: int)
    requires 0 <= challengeId < UInt32Limit && 0 <= userId < UInt32Limit
    requires 0 <= roundNo < 8 && 0 <= rounds < 16
    ensures EncodeChallengeStatus(challengeId, waiting, roundNo, rounds).Ok?
    ensures ParseChallengeStatus(EncodeChallengeStatus(challengeId, waiting, roundNo, rounds).value + EncodeId(userId).value)
      == Ok(ChallengeStatus(challengeId, waiting, roundNo, rounds, userId))
  {
    var head := EncodeChallengeStatus(challengeId, waiting, roundNo, rounds).value;
    var data := head + EncodeId(userId).value;
    assert data[..4] == LE(challengeId, 4);
    assert data[5..] == LE(userId, 4);
    UnpackLE(challengeId, 4);
    UnpackLE(userId, 4);
    var s := StatusByte(waiting, roundNo, rounds);
    assert data[4] == s;
    assert High(s) == rounds;
    assert Low(s) == (if waiting then 1 else 0) + 2 * roundNo;
  }

  // ------------------------------------------------------------- accept

  datatype Accept = Accept(challengeId: nat, accept: bool, extra: seq<Byte>)

  /** `parse_accept(data)`: the first five bytes are a challenge id and a
      flag (any non-zero byte is true); the acceptance and the sixth byte
      are reported only when the flag is set and there are exactly six
      bytes, otherwise the answer is a refusal. */
  function ParseAccept(data: seq<Byte>): (r: Result<Accept>)
    ensures r.Ok? <==> |data| >= 5
    ensures r.Err? ==> r.error == ValueError
    ensures r.Ok? ==> r.value.challengeId == Unpack(data[..4])
    ensures r.Ok? ==> (r.value.accept <==> data[4] != 0 && |data| == 6)
    ensures r.Ok? ==> r.value.extra == if r.value.accept then data[5..] else []
  {
    if |data| < 5 then Err(ValueError)
    else
      var id := Unpack(data[..4]);
      if data[4] != 0 && |data| == 6 then Ok(Accept(id, true, data[5..]))
      else Ok(Accept(id, false, []))
  }

  /** `encode_accept(challenge_id, decision)`: the id and the decision as a
      one-byte boolean, five bytes. */
  function EncodeAccept(challengeId: int, decision: bool): (r: Result<seq<Byte>>)
    ensures r.Ok? <==> 0 <= challengeId < UInt32Limit
    ensures r.Err? ==> r.error == ValueError
    ensures r.Ok? ==> |r.value| == 5
  {
    match PackUInt(challengeId, 4)
    case Err(e) => Err(e)
    case Ok(id) => Ok(id + [if decision then 1 else 0])
  }

  /** An accept message followed by one more byte parses back to its id,
      its decision and, when accepted, that byte. */
  lemma AcceptRoundTrip(challengeId: int, decision: bool, b: Byte)
    requires 0 <= challengeId < UInt32Limit
    ensures EncodeAccept(challengeId, decision).Ok?
    ensures ParseAccept(EncodeAccept(challengeId, decision).value + [b]) ==
      Ok(Accept(challengeId, decision, if decision then [b] else []))
  {
    var data := EncodeAccept(challengeId, decision).value + [b];
    assert data[..4] == LE(challengeId, 4);
    UnpackLE(challengeId, 4);
    assert data[5..] == [b];
  }

  /** Without the extra byte the same message parses as a refusal. */
  lemma AcceptAloneRefuses(challengeId: int, decision: bool)
    requires 0 <= challengeId < UInt32Limit
    ensures EncodeAccept(challengeId, decision).Ok?
    ensures ParseAccept(EncodeAccept(challengeId, decision).value) == Ok(Accept(challengeId, false, []))
  {
    var data := EncodeAccept(challengeId, decision).value;
    assert data[..4] == LE(challengeId, 4);
    UnpackLE(challengeId, 4);
  }

  // ------------------------------------------------------------ day deal

  /** `encode_daydeal(draw_count, dayoffset)`: the draw count as one byte,
      then the day offset as a little-endian `uint16`. */
  function EncodeDaydeal(drawCount: int, dayOffset: int): (r: Result<seq<Byte>>)
    ensures r.Ok? <==> 0 <= drawCount < 256 && 0 <= dayOffset < 0x1_0000
    ensures r.Err? ==> r.error == ValueError
    ensures r.Ok? ==> |r.value| == 3 && r.value[0] == drawCount && Unpack(r.value[1..]) == dayOffset
  {
    match PackUInt(drawCount, 1)
    case Err(e) => Err(e)
    case Ok(d) =>
      match PackUInt(dayOffset, 2)
      case Err(e) => Err(e)
      case Ok(o) =>
        assert (d + o)[1..] == o;
        Ok(d + o)
  }

  // --------------------------------------------------------- leaderboard

  datatype LeaderboardEntry = LeaderboardEntry(rank: nat, points: nat, userId: nat)

  /** `struct.unpack('<III', w)` of a 12-byte window. */
  function EntryOf(w: seq<Byte>): LeaderboardEntry
    requires |w| == 12
  {
    LeaderboardEntry(Unpack(w[..4]), Unpack(w[4..8]), Unpack(w[8..]))
  }

  /** `encode_leaderboard(rank, points, userid)`: three little-endian
      `uint32`s, twelve bytes. */
  function EncodeLeaderboard(rank: int, points: int, userId: int): (r: Result<seq<Byte>>)
    ensures r.Ok? <==> 0 <= rank < UInt32Limit && 0 <= points < UInt32Limit && 0 <= userId < UInt32Limit
    ensures r.Err? ==> r.error == ValueError
    ensures r.Ok? ==> |r.value| == 12 && EntryOf(r.value) == LeaderboardEntry(rank, points, userId)
  {
    match PackUInt(rank, 4)
    case Err(e) => Err(e)
    case Ok(a) =>
      match PackUInt(points, 4)
      case Err(e) => Err(e)
      case Ok(b) =>
        match PackUInt(userId, 4)
        case Err(e) => Err(e)
        case Ok(c) =>
          var w := a + b + c;
          assert w[..4] == a && w[4..8] == b && w[8..] == c;
          Ok(w)
  }

  /** What `parse_leaderboard(data)` returns: nothing when the length is
      not a multiple of 12, otherwise one entry per 12-byte window. */
  function Leaderboard(data: seq<Byte>): (es: seq<LeaderboardEntry>)
    ensures |data| % 12 != 0 ==> es == []
    ensures |data| % 12 == 0 ==> |es| == |data| / 12
  {
    if |data| % 12 != 0 then []
    else seq(|data| / 12, i requires 0 <= i < |data| / 12 => EntryOf(data[12 * i..12 * i + 12]))
  }

  /** `parse_leaderboard(data)`: the loop over the 12-byte windows. */
  method ParseLeaderboard(data: seq<Byte>) returns (ret: seq<LeaderboardEntry>)
    ensures ret == Leaderboard(data)
  {
    var dlen := |data|;
    if dlen % 12 != 0 {
      return [];
    }
    ret := [];
    for i := 0 to dlen / 12
      invariant ret == Leaderboard(data)[..i]
    {
      var start := i * 12;
      ret := ret + [EntryOf(data[start..start + 12])];
    }
    assert Leaderboard(data)[..dlen / 12] == Leaderboard(data);
  }

  /** An entry whose fields all fit a `uint32`. */
  predicate Encodable(e: LeaderboardEntry) {
    e.rank < UInt32Limit && e.points < UInt32Limit && e.userId < UInt32Limit
  }

  /** `encode_leaderboard` of an encodable entry. */
  function EntryBytes(e: LeaderboardEntry): (w: seq<Byte>)
    requires Encodable(e)
    ensures |w| == 12 && EntryOf(w) == e
  {
    EncodeLeaderboard(e.rank, e.points, e.userId).value
  }

  /** The server's reply: the entries encoded one after another. */
  function BoardBytes(es: seq<LeaderboardEntry>): seq<Byte>
    requires forall i :: 0 <= i < |es| ==> Encodable(es[i])
  {
    Concat(seq(|es|, i requires 0 <= i < |es| => EntryBytes(es[i])))
  }

  /** Parsing a reply built from encodable entries gives those entries. */
  lemma LeaderboardRoundTrip(es: seq<LeaderboardEntry>)
    requires forall i :: 0 <= i < |es| ==> Encodable(es[i])
    ensures Leaderboard(BoardBytes(es)) == es
  {
    var cs := seq(|es|, i requires 0 <= i < |es| => EntryBytes(es[i]));
    assert BoardBytes(es) == Concat(cs);
    ConcatLength(cs, 12);
    forall i | 0 <= i < |es|
      ensures Leaderboard(Concat(cs))[i] == es[i]
    {
      LeaderboardAt(cs, i);
    }
  }

  /** Entry `i` parsed from twelve-byte chunks is the entry of chunk `i`. */
  lemma LeaderboardAt(cs: seq<seq<Byte>>, i: nat)
    requires forall j :: 0 <= j < |cs| ==> |cs[j]| == 12
    requires i < |cs|
    ensures |Leaderboard(Concat(cs))| == |cs|
    ensures Leaderboard(Concat(cs))[i] == EntryOf(cs[i])
  {
    ConcatWindow(cs, 12, i);
  }

  /** Every 12-byte window is the encoding of the entry it holds. */
  lemma EntryBytesOf(w: seq<Byte>)
    requires |w| == 12
    ensures Encodable(EntryOf(w)) && EntryBytes(EntryOf(w)) == w
  {
    var a, b, c := w[..4], w[4..8], w[8..];
    PackUnpack4(a);
    PackUnpack4(b);
    PackUnpack4(c);
    assert EncodeLeaderboard(Unpack(a), Unpack(b), Unpack(c)) == Ok(a + b + c);
    assert a + b + c == w;
  }

  /** Packing the value of four bytes as a `uint32` gives those bytes. */
  lemma PackUnpack4(a: seq<Byte>)
    requires |a| == 4
    ensures Unpack(a) < UInt32Limit && PackUInt(Unpack(a), 4) == Ok(a)
  {
    assert Pow256(4) == UInt32Limit;
    LEUnpack(a);
  }

  /** Every reply whose length is a multiple of 12 is the encoding of what
      it parses to. */
  lemma LeaderboardBytesRoundTrip(data: seq<Byte>)
    requires |data| % 12 == 0
    ensures forall i :: 0 <= i < |Leaderboard(data)| ==> Encodable(Leaderboard(data)[i])
    ensures BoardBytes(Leaderboard(data)) == data
  {
    var es := Leaderboard(data);
    var n := |data| / 12;
    var ws := Windows(data, 12, n);
    forall i | 0 <= i < n
      ensures Encodable(es[i]) && EntryBytes(es[i]) == ws[i]
    {
      WindowAt(data, 12, n, i);
      assert es[i] == EntryOf(ws[i]);
      EntryBytesOf(ws[i]);
    }
    var cs := seq(|es|, i requires 0 <= i < |es| => EntryBytes(es[i]));
    assert cs == ws;
    ConcatWindows(data, 12, n);
  }

  // --------------------------------------------------------------- hashes

  /** `struct.pack` of the values `vs` as `n`-byte unsigned integers, one
      after another: any value that is not an integer in range makes it a
      `ValueError`. */
  function PackAll(vs: seq<Py.Value>, n: nat): (r: Result<seq<Byte>>)
    ensures r.Ok? <==> forall i :: 0 <= i < |vs| ==> PackValue(vs[i], n).Ok?
    ensures r.Err? ==> r.error == ValueError
    ensures r.Ok? ==> |r.value| == Span(n, |vs|)
  {
    if vs == [] then Ok([])
    else match PackValue(vs[0], n)
      case Err(e) => Err(e)
      case Ok(b) =>
        match PackAll(vs[1..], n)
        case Err(e) =>
          assert !PackValue(vs[1..][0], n).Ok? || exists i :: 1 <= i < |vs| && !PackValue(vs[i], n).Ok? by {
            var i :| 0 <= i < |vs[1..]| && !PackValue(vs[1..][i], n).Ok?;
            assert vs[1..][i] == vs[i + 1];
          }
          Err(e)
        case Ok(rest) =>
          assert forall i :: 1 <= i < |vs| ==> vs[i] == vs[1..][i - 1];
          SpanFront(n, |vs|);
          Ok(b + rest)
  }

  /** The `n` little-endian `uint32`s of `h`, as `struct.unpack` reads them. */
  function Words(h: seq<Byte>, n: nat): (ws: seq<nat>)
    requires |h| == Span(4, n)
    ensures |ws| == n
  {
    var w := Windows(h, 4, n);
    seq(n, i requires 0 <= i < n => Unpack(w[i]))
  }

  /** Packing the words of `h` gives `h` back. */
  lemma {:induction false} PackWords(h: seq<Byte>, n: nat)
    requires |h| == Span(4, n)
    ensures PackAll(IntValues(Words(h, n)), 4) == Ok(h)
  {
    if n > 0 {
      SpanFront(4, n);
      var t := h[4..];
      PackWords(t, n - 1);
      var vs := IntValues(Words(h, n));
      assert Windows(h, 4, n)[0] == h[..4];
      LEUnpack(h[..4]);
      assert vs[0] == Py.Int(Unpack(h[..4]));
      forall i | 0 <= i < n - 1
        ensures vs[1..][i] == IntValues(Words(t, n - 1))[i]
      {
        assert Windows(h, 4, n)[i + 1] == Windows(t, 4, n - 1)[i];
      }
      assert vs[1..] == IntValues(Words(t, n - 1));
      assert h == h[..4] + t;
    }
  }

  /** Python integers for the numbers `ns`. */
  function IntValues(ns: seq<nat>): (vs: seq<Py.Value>)
    ensures |vs| == |ns|
  {
    seq(|ns|, i requires 0 <= i < |ns| => Py.Int(ns[i]))
  }

  /** `s.split(',')`: the fields between the commas, at least one. */
  function Split(s: string): (fs: seq<string>)
    ensures |fs| >= 1
  {
    if s == [] then [[]]
    else if s[0] == ',' then [[]] + Split(s[1..])
    else
      var r := Split(s[1..]);
      [[s[0]] + r[0]] + r[1..]
  }

  /** `','.join(fs)` */
  function Join(fs: seq<string>): string
    requires |fs| >= 1
  {
    if |fs| == 1 then fs[0] else fs[0] + [','] + Join(fs[1..])
  }

  predicate NoComma(s: string) {
    forall i :: 0 <= i < |s| ==> s[i] != ','
  }

  /** A comma-free field followed by a comma splits off as the first field. */
  lemma {:induction false} SplitField(x: string, t: string)
    requires NoComma(x)
    ensures Split(x + [','] + t) == [x] + Split(t)
  {
    if x != [] {
      SplitField(x[1..], t);
      assert (x + [','] + t)[1..] == x[1..] + [','] + t;
      assert [x[0]] + x[1..] == x;
    }
  }

  lemma {:induction false} SplitPlain(x: string)
    requires NoComma(x)
    ensures Split(x) == [x]
  {
    if x != [] {
      SplitPlain(x[1..]);
      assert [x[0]] + x[1..] == x;
    }
  }

  /** Splitting a join of comma-free fields gives the fields back. */
  lemma {:induction false} SplitJoin(fs: seq<string>)
    requires |fs| >= 1 && forall i :: 0 <= i < |fs| ==> NoComma(fs[i])
    ensures Split(Join(fs)) == fs
  {
    if |fs| == 1 {
      SplitPlain(fs[0]);
    } else {
      SplitJoin(fs[1..]);
      SplitField(fs[0], Join(fs[1..]));
    }
  }

  function Digit(d: nat): (c: char)
    requires d < 10
    ensures '0' <= c <= '9'
  {
    (48 + d) as char
  }

  /** `str(n)`: decimal digits without leading zeros. */
  function Decimal(n: nat): (s: string)
    ensures |s| >= 1 && forall i :: 0 <= i < |s| ==> '0' <= s[i] <= '9'
  {
    if n < 10 then [Digit(n)] else Decimal(n / 10) + [Digit(n % 10)]
  }

  /** `int(s)` for a field that consists of decimal digits; anything else
      is a `ValueError` (`None` here). */
  function DecimalValue(s: string): (r: Option<nat>)
    ensures r.Some? <==> s != [] && forall i :: 0 <= i < |s| ==> '0' <= s[i] <= '9'
    ensures r.Some? ==> NoComma(s)
  {
    if s == [] then None
    else
      var c := s[|s| - 1];
      if !('0' <= c <= '9') then None
      else if |s| == 1 then Some(c as int - 48)
      else match DecimalValue(s[..|s| - 1])
        case None => None
        case Some(v) =>
          assert s == s[..|s| - 1] + [c];
          Some(10 * v + (c as int - 48))
  }

  /** `int(str(n)) == n` */
  lemma {:induction false} DecimalRoundTrip(n: nat)
    ensures DecimalValue(Decimal(n)) == Some(n)
  {
    if n >= 10 {
      DecimalRoundTrip(n / 10);
      var s := Decimal(n);
      assert s[..|s| - 1] == Decimal(n / 10);
    }
  }

  /** `int(v)` for every field, `None` at the first that fails. */
  function DecimalValues(fs: seq<string>): (r: Option<seq<nat>>)
    ensures r.Some? ==> |r.value| == |fs|
  {
    if fs == [] then Some([])
    else match DecimalValue(fs[0])
      case None => None
      case Some(v) =>
        match DecimalValues(fs[1..])
        case None => None
        case Some(vs) => Some([v] + vs)
  }

  lemma {:induction false} DecimalsRoundTrip(ns: seq<nat>)
    ensures DecimalValues(seq(|ns|, i requires 0 <= i < |ns| => Decimal(ns[i]))) == Some(ns)
  {
    if ns != [] {
      var ds := seq(|ns|, i requires 0 <= i < |ns| => Decimal(ns[i]));
      DecimalRoundTrip(ns[0]);
      DecimalsRoundTrip(ns[1..]);
      assert ds[1..] == seq(|ns[1..]|, i requires 0 <= i < |ns[1..]| => Decimal(ns[1..][i]));
      assert ns == [ns[0]] + ns[1..];
    }
  }

  /** `encode_hash(data)`: the twelve little-endian `uint32`s of a 48-byte
      digest, in decimal, joined by commas. */
  function EncodeHash(data: seq<Byte>): (r: Result<string>)
    ensures r.Ok? <==> |data| == HashSize
    ensures r.Err? ==> r.error == ValueError
  {
    if |data| != HashSize then Err(ValueError)
    else
      var ws := Words(data, HashWords);
      Ok(Join(seq(HashWords, i requires 0 <= i < HashWords => Decimal(ws[i]))))
  }

  /** `parse_hash(data)` as written: after the field count check the
      fields go to `struct.pack` as strings, and packing a string as an
      integer fails. */
  function ParseHashAsWritten(data: string): (r: Result<seq<Byte>>)
    ensures r.Ok? ==> |Split(data)| == HashWords
    ensures r.Err? ==> r.error == ValueError
  {
    var values := Split(data);
    if |values| != HashWords then Err(ValueError)
    else PackAll(seq(|values|, i requires 0 <= i < |values| => Py.Str(values[i])), 4)
  }

  /** `parse_hash` as written accepts no input at all. */
  lemma ParseHashAsWrittenFails(data: string)
    ensures ParseHashAsWritten(data) == Err(ValueError)
  {
    var values := Split(data);
    if |values| == HashWords {
      var vs := seq(|values|, i requires 0 <= i < |values| => Py.Str(values[i]));
      assert !PackValue(vs[0], 4).Ok?;
    }
  }

  /** `parse_hash(data)` with each field converted by `int` before packing:
      twelve comma-separated decimal fields, each a `uint32`. */
  function ParseHash(data: string): (r: Result<seq<Byte>>)
    ensures r.Ok? ==> |Split(data)| == HashWords && |r.value| == HashSize
    ensures r.Err? ==> r.error == ValueError
  {
    var values := Split(data);
    if |values| != HashWords then Err(ValueError)
    else match DecimalValues(values)
      case None => Err(ValueError)
      case Some(ns) => PackAll(IntValues(ns), 4)
  }

  /** Every digest survives `encode_hash` and the corrected `parse_hash`,
      while `parse_hash` as written rejects it. */
  lemma HashRoundTrip(h: seq<Byte>)
    requires |h| == HashSize
    ensures ParseHash(EncodeHash(h).value) == Ok(h)
    ensures ParseHashAsWritten(EncodeHash(h).value) == Err(ValueError)
  {
    var ws := Words(h, HashWords);
    var ds := seq(HashWords, i requires 0 <= i < HashWords => Decimal(ws[i]));
    assert EncodeHash(h).value == Join(ds);
    SplitJoin(ds);
    DecimalsRoundTrip(ws);
    PackWords(h, HashWords);
    ParseHashAsWrittenFails(Join(ds));
  }
}
