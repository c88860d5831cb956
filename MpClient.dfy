/** The reply parser of the multiplayer client (`pyos/mpclient.py`): a
    reply to a user list request is a tag byte followed by little-endian
    `uint32` user ids. */
module MpClient {
  import opened Outcomes
  import opened Util

  /** What `_userid_list(data)` returns: nothing when the reply is shorter
      than five bytes or its ids do not fill whole words; otherwise one id
      per word, the `i`-th read from `data[4 * i..4 * i + 4]`, a window
      that starts at the tag byte instead of after it. */
  function UseridsAsWritten(data: seq<Byte>): (ids: seq<nat>)
    ensures |data| < 5 || (|data| - 1) % 4 != 0 ==> ids == []
    ensures |data| >= 5 && (|data| - 1) % 4 == 0 ==> |ids| == (|data| - 1) / 4 >= 1
    ensures forall i :: 0 <= i < |ids| ==> ids[i] < UInt32Limit
  {
    if |data| < 5 || (|data| - 1) % 4 != 0 then []
    else seq((|data| - 1) / 4, i requires 0 <= i < (|data| - 1) / 4 => Unpack(data[4 * i..4 * i + 4]))
  }

  /** `_userid_list(data)`: the loop over the words, each read by
      `parse_id`. */
  method UseridList(data: seq<Byte>) returns (ret: seq<nat>)
    ensures ret == UseridsAsWritten(data)
  {
    if |data| < 5 || (|data| - 1) % 4 != 0 {
      return [];
    }
    ret := [];
    for i := 0 to (|data| - 1) / 4
      invariant ret == UseridsAsWritten(data)[..i]
    {
      var start := i * 4;
      var id := ParseId(data[start..start + 4]);
      ret := ret + [id.value];
    }
    assert UseridsAsWritten(data)[..(|data| - 1) / 4] == UseridsAsWritten(data);
  }

  /** The first id read includes the tag byte as its lowest byte. */
  lemma UseridsReadTag(data: seq<Byte>)
    requires |data| >= 5 && (|data| - 1) % 4 == 0
    ensures UseridsAsWritten(data)[0] % 256 == data[0]
  {
    assert data[..4][1..] == data[1..4];
  }

  /** The last byte of a reply is never read. */
  lemma UseridsSkipLast(data: seq<Byte>, b: Byte)
    requires |data| >= 5
    ensures UseridsAsWritten(data[..|data| - 1] + [b]) == UseridsAsWritten(data)
  {
    var other := data[..|data| - 1] + [b];
    if (|data| - 1) % 4 == 0 {
      var n := (|data| - 1) / 4;
      forall i | 0 <= i < n
        ensures other[4 * i..4 * i + 4] == data[4 * i..4 * i + 4]
      {
      }
    }
  }

  /** A reply with the single id 1 after the tag 7 lists the id 263. */
  lemma UseridsAsWrittenExample()
    ensures UseridsAsWritten([7, 1, 0, 0, 0]) == [263]
    ensures Userids([7, 1, 0, 0, 0]) == [1]
  {
    var data: seq<Byte> := [7, 1, 0, 0, 0];
    assert data[0..4] == [7, 1, 0, 0] && data[1..5] == [1, 0, 0, 0];
    var zero: seq<Byte> := [0];
    assert Unpack(zero) == 0 by { assert zero[1..] == []; }
    assert Unpack([0, 0]) == 0 by { assert [0, 0][1..] == zero; }
    assert Unpack([0, 0, 0]) == 0 by { assert [0, 0, 0][1..] == [0, 0]; }
    assert Unpack([1, 0, 0]) == 1 by { assert [1, 0, 0][1..] == [0, 0]; }
    assert Unpack([1, 0, 0, 0]) == 1 by { assert [1, 0, 0, 0][1..] == [0, 0, 0]; }
    assert Unpack([7, 1, 0, 0]) == 263 by { assert [7, 1, 0, 0][1..] == [1, 0, 0]; }
  }

  /** The list parser with the windows after the tag byte: the `i`-th id is
      read from `data[1 + 4 * i..5 + 4 * i]`. */
  function Userids(data: seq<Byte>): (ids: seq<nat>)
    ensures |data| < 5 || (|data| - 1) % 4 != 0 ==> ids == []
    ensures |data| >= 5 && (|data| - 1) % 4 == 0 ==> |ids| == (|data| - 1) / 4 >= 1
    ensures forall i :: 0 <= i < |ids| ==> ids[i] < UInt32Limit
  {
    if |data| < 5 || (|data| - 1) % 4 != 0 then []
    else seq((|data| - 1) / 4, i requires 0 <= i < (|data| - 1) / 4 => Unpack(data[1 + 4 * i..5 + 4 * i]))
  }

  /** The reply to a list request: the tag, then every id encoded. */
  function Reply(tag: Byte, ids: seq<nat>): seq<Byte>
    requires forall i :: 0 <= i < |ids| ==> ids[i] < UInt32Limit
  {
    [tag] + Concat(seq(|ids|, i requires 0 <= i < |ids| => EncodeId(ids[i]).value))
  }

  /** The corrected parser lists exactly the ids of a non-empty reply. */
  lemma UseridsRoundTrip(tag: Byte, ids: seq<nat>)
    requires |ids| >= 1 && forall i :: 0 <= i < |ids| ==> ids[i] < UInt32Limit
    ensures Userids(Reply(tag, ids)) == ids
  {
    var cs := seq(|ids|, i requires 0 <= i < |ids| => EncodeId(ids[i]).value);
    assert Reply(tag, ids) == [tag] + Concat(cs);
    UseridsAt(tag, cs, 0);
    forall i | 0 <= i < |ids|
      ensures Userids([tag] + Concat(cs))[i] == ids[i]
    {
      UseridsAt(tag, cs, i);
      assert Unpack(cs[i]) == Unpack(PackUInt(ids[i], 4).value);
    }
  }

  /** Id `i` parsed from a tag and four-byte words is the value of word
      `i`. */
  lemma UseridsAt(tag: Byte, cs: seq<seq<Byte>>, i: nat)
    requires forall j :: 0 <= j < |cs| ==> |cs[j]| == 4
    requires i < |cs|
    ensures |Userids([tag] + Concat(cs))| == |cs|
    ensures Userids([tag] + Concat(cs))[i] == Unpack(cs[i])
  {
    var d := Concat(cs);
    ConcatWindow(cs, 4, i);
    assert |d| == 4 * |cs| && d[4 * i..4 * i + 4] == cs[i];
    UseridsWord(tag, d, |cs|, i);
  }

  /** Id `i` parsed from a tag and `n` words is the value of word `i`. */
  lemma UseridsWord(tag: Byte, d: seq<Byte>, n: nat, i: nat)
    requires |d| == 4 * n && i < n
    ensures |Userids([tag] + d)| == n
    ensures Userids([tag] + d)[i] == Unpack(d[4 * i..4 * i + 4])
  {
    var data := [tag] + d;
    assert (|data| - 1) / 4 == n;
    assert data[1 + 4 * i..5 + 4 * i] == d[4 * i..4 * i + 4];
  }
}
