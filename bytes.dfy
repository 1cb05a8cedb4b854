/** Unsigned wire integers, their little-endian encodings and in-place
    overwrites of a byte sequence.  The packet writers of the RDP engine
    emit every multi-byte field little-endian. */
module Bytes {

  type u4 = x: int | 0 <= x < 0x10
  type u8 = x: int | 0 <= x < 0x100
  type u16 = x: int | 0 <= x < 0x1_0000
  type u32 = x: int | 0 <= x < 0x1_0000_0000

  /** The 2-byte little-endian encoding of `v`. */
  function LE16(v: u16): (r: seq<u8>)
    ensures |r| == 2 && U16At(r, 0) == v
  {
    [v % 0x100, v / 0x100]
  }

  /** The 4-byte little-endian encoding of `v`. */
  function LE32(v: u32): (r: seq<u8>)
    ensures |r| == 4 && U32At(r, 0) == v
  {
    var b0, b1, b2, b3 := v % 0x100, (v / 0x100) % 0x100, (v / 0x1_0000) % 0x100, v / 0x100_0000;
    assert v == b0 + 0x100 * (v / 0x100);
    assert v / 0x100 == b1 + 0x100 * (v / 0x1_0000);
    assert v / 0x1_0000 == b2 + 0x100 * b3;
    [b0, b1, b2, b3]
  }

  /** The little-endian 16-bit value stored at `s[i..i+2]`. */
  function U16At(s: seq<u8>, i: nat): u16
    requires i + 2 <= |s|
  {
    s[i] as int + 0x100 * s[i + 1] as int
  }

  /** The little-endian 32-bit value stored at `s[i..i+4]`. */
  function U32At(s: seq<u8>, i: nat): u32
    requires i + 4 <= |s|
  {
    s[i] as int + 0x100 * s[i + 1] as int + 0x1_0000 * s[i + 2] as int + 0x100_0000 * s[i + 3] as int
  }

  /** A 16-bit field is read back from wherever its encoding was placed. */
  lemma U16AtLE16(s: seq<u8>, i: nat, v: u16)
    requires i + 2 <= |s| && s[i..i + 2] == LE16(v)
    ensures U16At(s, i) == v
  {
    assert s[i] == LE16(v)[0] && s[i + 1] == LE16(v)[1];
  }

  /** 16-bit fields written one after another, little-endian. */
  function LE16s(vs: seq<u16>): (r: seq<u8>)
    ensures |r| == 2 * |vs|
  {
    if vs == [] then [] else LE16(vs[0]) + LE16s(vs[1..])
  }

  /** Field `k` of a run of 16-bit fields is read back at offset `2 * k`,
      whatever follows the run. */
  lemma {:induction false} U16AtLE16s(vs: seq<u16>, rest: seq<u8>, k: nat)
    requires k < |vs|
    ensures U16At(LE16s(vs) + rest, 2 * k) == vs[k]
  {
    var s := LE16s(vs) + rest;
    var tail := LE16s(vs[1..]) + rest;
    assert s == LE16(vs[0]) + tail;
    if k == 0 {
      assert s[0..2] == LE16(vs[0]);
      U16AtLE16(s, 0, vs[0]);
    } else {
      U16AtLE16s(vs[1..], rest, k - 1);
      assert s[2 * k] == tail[2 * k - 2] && s[2 * k + 1] == tail[2 * k - 1];
    }
  }

  /** A 32-bit field is read back from wherever its encoding was placed. */
  lemma U32AtLE32(s: seq<u8>, i: nat, v: u32)
    requires i + 4 <= |s| && s[i..i + 4] == LE32(v)
    ensures U32At(s, i) == v
  {
    assert s[i] == LE32(v)[0] && s[i + 1] == LE32(v)[1];
    assert s[i + 2] == LE32(v)[2] && s[i + 3] == LE32(v)[3];
  }

  /** `s` with the bytes `w` written over it from offset `at` on; every
      byte outside that window keeps its value. */
  function Splice(s: seq<u8>, at: nat, w: seq<u8>): (r: seq<u8>)
    requires at + |w| <= |s|
    ensures |r| == |s|
    ensures r[at..at + |w|] == w
    ensures forall i :: 0 <= i < |s| && !(at <= i < at + |w|) ==> r[i] == s[i]
  {
    s[..at] + w + s[at + |w|..]
  }

  /** Writing `w` at the end of a window that starts at `from` extends
      that window by exactly `w`. */
  lemma SpliceExtends(s: seq<u8>, from: nat, at: nat, w: seq<u8>)
    requires from <= at && at + |w| <= |s|
    ensures Splice(s, at, w)[from..at + |w|] == s[from..at] + w
  {
    var r := Splice(s, at, w);
    assert r[from..at + |w|] == r[from..at] + r[at..at + |w|];
    assert r[from..at] == s[from..at];
  }

  /** A 16-bit overwrite in the middle of a window replaces exactly the
      two bytes it covers and leaves the rest of the window as it was. */
  lemma SplicePatch(s: seq<u8>, from: nat, pre: seq<u8>, was: seq<u8>, post: seq<u8>, w: seq<u8>)
    requires |was| == |w| && from + |pre| + |w| + |post| <= |s|
    requires s[from..from + |pre| + |w| + |post|] == pre + was + post
    ensures Splice(s, from + |pre|, w)[from..from + |pre| + |w| + |post|] == pre + w + post
  {
    var r := Splice(s, from + |pre|, w);
    var to := from + |pre| + |w| + |post|;
    assert r[from..to] == r[from..from + |pre|] + r[from + |pre|..from + |pre| + |w|] + r[from + |pre| + |w|..to];
    assert s[from..to] == s[from..from + |pre|] + s[from + |pre|..from + |pre| + |w|] + s[from + |pre| + |w|..to];
    assert s[from..to][..|pre|] == pre;
    assert s[from..to][|pre| + |w|..] == post;
  }

  /** Writing `w` at the start of a window replaces the window's first
      `|w|` bytes and keeps the rest. */
  lemma SpliceHead(s: seq<u8>, at: nat, end: nat, w: seq<u8>)
    requires at + |w| <= end <= |s|
    ensures Splice(s, at, w)[at..end] == w + s[at + |w|..end]
  {
    var r := Splice(s, at, w);
    assert r[at..end] == r[at..at + |w|] + r[at + |w|..end];
  }

  /** The tail of a window whose bytes are `pre + w` is `w`. */
  lemma WindowTail(s: seq<u8>, from: nat, to: nat, pre: seq<u8>, w: seq<u8>)
    requires from <= to <= |s| && s[from..to] == pre + w
    ensures s[from + |pre|..to] == w
  {
    assert s[from + |pre|..to] == s[from..to][|pre|..];
  }

}
