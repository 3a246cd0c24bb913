/** The inflater's match copy (deps/miniz/tinfl.c): an earlier part of the output is repeated, and
    may overlap what it produces. The output buffer is a window on the output: output byte t is at
    t modulo the size of the buffer, as long as it is not overwritten. A buffer that never wraps is
    the case of an output no longer than the buffer: there the mask is all ones, and every place is in
    the buffer. */
module MatchCopy {
  import opened Places

  /** The copy of section 3.2.5 of RFC 1951, one byte at a time. */
  function Repeat(out: seq<nat>, dist: nat, len: nat): (r: seq<nat>)
    requires 1 <= dist <= |out|
    ensures |r| == |out| + len && r[..|out|] == out
  {
    if len == 0 then out
    else var shorter := Repeat(out, dist, len - 1); shorter + [shorter[|shorter| - dist]]
  }

  // Every byte of the copy is the one dist bytes before it.
  lemma {:induction false} RepeatAt(out: seq<nat>, dist: nat, len: nat, k: nat)
    requires 1 <= dist <= |out| && |out| <= k < |out| + len
    ensures Repeat(out, dist, len)[k] == Repeat(out, dist, len)[k - dist]
  {
    if k < |out| + len - 1 {
      RepeatAt(out, dist, len - 1, k);
    }
  }

  /** Byte k of the copy is byte k modulo dist of what it copies. */
  lemma {:induction false} RepeatIs(out: seq<nat>, dist: nat, len: nat, k: nat)
    requires 1 <= dist <= |out| && k < len
    ensures k % dist < dist && Repeat(out, dist, len)[|out| + k] == out[|out| - dist + k % dist]
  {
    hide Repeat;
    RepeatAt(out, dist, len, |out| + k);
    var r := Repeat(out, dist, len);
    if k < dist {
      assert k % dist == k;
      assert r[..|out|][|out| + k - dist] == r[|out| + k - dist];
    } else {
      RepeatIs(out, dist, len, k - dist);
      Periodic(k, dist);
    }
  }

  lemma Periodic(k: nat, d: nat)
    requires 1 <= d <= k
    ensures (k - d) % d == k % d
  {
    PlaceIs(k, d, (k - d) / d + 1, (k - d) % d);
  }

  lemma {:induction false} RepeatSplits(out: seq<nat>, dist: nat, a: nat, b: nat)
    requires 1 <= dist <= |out|
    ensures Repeat(Repeat(out, dist, a), dist, b) == Repeat(out, dist, a + b)
  {
    if b > 0 {
      RepeatSplits(out, dist, a, b - 1);
    }
  }

  // ------------------------------------------------------------------
  // The window
  // ------------------------------------------------------------------

  // The buffer shows the end of the output.
  ghost predicate Window(buf: seq<nat>, out: seq<nat>) {
    |buf| > 0 && forall t :: 0 <= t < |out| && t >= |out| - |buf| ==> buf[Place(t, |buf|)] == out[t]
  }

  // pOut_buf_cur may stand at the end of the buffer as well as at its start.
  ghost predicate Stands(cur: nat, n: nat, len: nat)
    requires n > 0
  {
    cur == Place(len, n) || (cur == n && Place(len, n) == 0)
  }

  // Any byte that is put out moves the window.
  lemma WindowMoves(buf: seq<nat>, out: seq<nat>, b: nat, at: nat)
    requires Window(buf, out) && at == Place(|out|, |buf|)
    ensures Window(buf[at := b], out + [b])
  {
    hide Place;
    var buf', out', n := buf[at := b], out + [b], |buf|;
    forall t | 0 <= t < |out'| && t >= |out'| - n ensures buf'[Place(t, n)] == out'[t] {
      if t < |out| {
        PlacesDiffer(t, |out|, n);
      }
    }
  }

  /** One byte: what is written is the output dist bytes back, and the window moves on. */
  lemma CopyByte(buf: seq<nat>, out: seq<nat>, dist: nat, k: nat, at: nat, from: nat)
    requires 1 <= dist <= |out| && dist <= |buf| && Window(buf, Repeat(out, dist, k))
    requires at == Place(|out| + k, |buf|) && from == Place(|out| + k - dist, |buf|)
    ensures Window(buf[at := buf[from]], Repeat(out, dist, k + 1))
  {
    hide Place;
    var so := Repeat(out, dist, k);
    assert buf[from] == so[|so| - dist];
    WindowMoves(buf, so, so[|so| - dist], at);
  }

  // ------------------------------------------------------------------
  // The masked copy
  // ------------------------------------------------------------------

  // k bytes have been copied, and cur and pos have moved along.
  ghost predicate Masked(buf: seq<nat>, out: seq<nat>, dist: nat, k: nat, cur: nat, pos: nat) {
    && |buf| > 0 && 1 <= dist <= |out| && dist <= |buf|
    && Window(buf, Repeat(out, dist, k)) && Stands(cur, |buf|, |out| + k)
    && Place(pos, |buf|) == Place(|out| + k, |buf|)
  }

  lemma MaskedStep(buf: seq<nat>, out: seq<nat>, dist: nat, k: nat, cur: nat, pos: nat)
    requires Masked(buf, out, dist, k, cur, pos) && cur < |buf|
    ensures Masked(buf[cur := buf[Place(pos - dist, |buf|)]], out, dist, k + 1, cur + 1, pos + 1)
  {
    hide Place;
    var n, len := |buf|, |out| + k;
    PlacesMove(pos, len, 0 - dist, n);
    CopyByte(buf, out, dist, k, cur, Place(pos - dist, n));
    PlaceMoves(len, 1, n);
    PlacesMove(pos, len, 1, n);
  }

  /** The masked copy, byte by byte, as far as the buffer goes. When it is full the caller empties
      it and the copy goes on. */
  method CopyMasked(buf: array<nat>, cur0: nat, pos0: nat, dist: nat, counter0: nat, ghost out: seq<nat>)
    returns (cur: nat, pos: nat, counter: nat)
    requires Masked(buf[..], out, dist, 0, cur0, pos0)
    modifies buf
    ensures counter <= counter0 && (counter == 0 || cur == buf.Length) && cur == cur0 + (counter0 - counter) <= buf.Length
    ensures pos == pos0 + (counter0 - counter)
    ensures Masked(buf[..], out, dist, counter0 - counter, cur, pos)
  {
    hide Place, Window;
    cur, pos, counter := cur0, pos0, counter0;
    while counter > 0 && cur < buf.Length
      invariant counter <= counter0 && cur == cur0 + (counter0 - counter) && pos == pos0 + (counter0 - counter)
      invariant cur0 <= buf.Length ==> cur <= buf.Length
      invariant Masked(buf[..], out, dist, counter0 - counter, cur, pos)
    {
      MaskedStep(buf[..], out, dist, counter0 - counter, cur, pos);
      buf[cur] := buf[Place(pos - dist, buf.Length)];
      cur, pos, counter := cur + 1, pos + 1, counter - 1;
    }
  }

  // ------------------------------------------------------------------
  // The copies for a match that lies within the buffer at both ends
  // ------------------------------------------------------------------

  // k bytes have been copied, from src0 on, to cur0 on.
  ghost predicate Copied(buf: seq<nat>, out: seq<nat>, dist: nat, cur0: nat, src0: nat, k: nat) {
    && |buf| > 0 && 1 <= dist <= |out| && dist <= |buf| && Window(buf, Repeat(out, dist, k))
    && cur0 + k <= |buf| && src0 + k <= |buf|
    && Stands(cur0, |buf|, |out|) && src0 == Place(|out| - dist, |buf|)
  }

  lemma CopyNext(buf: seq<nat>, out: seq<nat>, dist: nat, cur0: nat, src0: nat, k: nat)
    requires Copied(buf, out, dist, cur0, src0, k) && cur0 + k < |buf| && src0 + k < |buf|
    ensures Copied(buf[cur0 + k := buf[src0 + k]], out, dist, cur0, src0, k + 1)
  {
    hide Place;
    PlaceMoves(|out|, k, |buf|);
    PlaceMoves(|out| - dist, k, |buf|);
    assert |out| - dist + k == |out| + k - dist;
    CopyByte(buf, out, dist, k, cur0 + k, src0 + k);
  }

  // The unrolled loop: three bytes at a time, then what is left.
  method CopyThrees(buf: array<nat>, cur0: nat, src0: nat, dist: nat, k0: nat, len: nat, ghost out: seq<nat>)
    requires Copied(buf[..], out, dist, cur0, src0, k0) && k0 + 3 <= len && cur0 + len <= buf.Length && src0 + len <= buf.Length
    modifies buf
    ensures Copied(buf[..], out, dist, cur0, src0, len)
  {
    hide Copied;
    var cur, src, counter := cur0 + k0, src0 + k0, len - k0;
    ghost var k := k0;
    while counter > 2
      invariant 0 <= counter == len - k && cur == cur0 + k && src == src0 + k && k0 <= k
      invariant Copied(buf[..], out, dist, cur0, src0, k)
    {
      CopyNext(buf[..], out, dist, cur0, src0, k);
      buf[cur] := buf[src];
      CopyNext(buf[..], out, dist, cur0, src0, k + 1);
      buf[cur + 1] := buf[src + 1];
      CopyNext(buf[..], out, dist, cur0, src0, k + 2);
      buf[cur + 2] := buf[src + 2];
      cur, src, counter, k := cur + 3, src + 3, counter - 3, k + 3;
    }
    CopyRest(buf, cur, src, counter, cur0, src0, dist, k, out);
  }

  // The last one or two bytes.
  method CopyRest(buf: array<nat>, cur: nat, src: nat, counter: nat, ghost cur0: nat, ghost src0: nat, dist: nat, ghost k: nat, ghost out: seq<nat>)
    requires Copied(buf[..], out, dist, cur0, src0, k) && counter < 3 && cur == cur0 + k && src == src0 + k
    requires cur + counter <= buf.Length && src + counter <= buf.Length
    modifies buf
    ensures Copied(buf[..], out, dist, cur0, src0, k + counter)
  {
    hide Copied;
    if counter > 0 {
      CopyNext(buf[..], out, dist, cur0, src0, k);
      buf[cur] := buf[src];
      if counter > 1 {
        CopyNext(buf[..], out, dist, cur0, src0, k + 1);
        buf[cur + 1] := buf[src + 1];
      }
    }
  }

  // The bytes of a word to be read are not among those just written.
  lemma WordsApart(buf: seq<nat>, out: seq<nat>, dist: nat, cur0: nat, src0: nat, k: nat)
    requires Copied(buf, out, dist, cur0, src0, k) && cur0 < |buf|
    ensures cur0 - src0 >= dist || cur0 <= src0
  {
    hide Place;
    Distance(|out|, dist, |buf|);
  }

  // A word of four bytes is read before any of it is written.
  lemma CopyFour(buf: seq<nat>, out: seq<nat>, dist: nat, cur0: nat, src0: nat, k: nat)
    requires Copied(buf, out, dist, cur0, src0, k) && cur0 + k + 4 <= |buf| && src0 + k + 4 <= |buf| && dist >= 4
    ensures var c, s := cur0 + k, src0 + k;
      Copied(buf[c := buf[s]][c + 1 := buf[s + 1]][c + 2 := buf[s + 2]][c + 3 := buf[s + 3]], out, dist, cur0, src0, k + 4)
  {
    hide Copied;
    var c, s := cur0 + k, src0 + k;
    WordsApart(buf, out, dist, cur0, src0, k);
    var b1 := buf[c := buf[s]];
    CopyNext(buf, out, dist, cur0, src0, k);
    var b2 := b1[c + 1 := b1[s + 1]];
    CopyNext(b1, out, dist, cur0, src0, k + 1);
    var b3 := b2[c + 2 := b2[s + 2]];
    CopyNext(b2, out, dist, cur0, src0, k + 2);
    CopyNext(b3, out, dist, cur0, src0, k + 3);
  }

  method CopyWord(buf: array<nat>, c: nat, s: nat, ghost cur0: nat, ghost src0: nat, dist: nat, ghost k: nat, ghost out: seq<nat>)
    requires Copied(buf[..], out, dist, cur0, src0, k) && c == cur0 + k && s == src0 + k && dist >= 4
    requires c + 4 <= buf.Length && s + 4 <= buf.Length
    modifies buf
    ensures Copied(buf[..], out, dist, cur0, src0, k + 4)
  {
    hide Copied;
    CopyFour(buf[..], out, dist, cur0, src0, k);
    ghost var b := buf[..];
    buf[c], buf[c + 1], buf[c + 2], buf[c + 3] := buf[s], buf[s + 1], buf[s + 2], buf[s + 3];
    assert buf[..] == b[c := b[s]][c + 1 := b[s + 1]][c + 2 := b[s + 2]][c + 3 := b[s + 3]];
  }

  // Eight bytes at a time, for a long match that does not overlap itself; then the rest.
  method CopyWords(buf: array<nat>, cur0: nat, src0: nat, dist: nat, len: nat, ghost out: seq<nat>)
    requires Copied(buf[..], out, dist, cur0, src0, 0) && 9 <= len <= dist && cur0 + len <= buf.Length && src0 + len <= buf.Length
    modifies buf
    ensures Copied(buf[..], out, dist, cur0, src0, len)
  {
    hide Copied;
    var cur, src := cur0, src0;
    var whole := len / 8 * 8;
    ghost var k := 0;
    while src < src0 + whole
      invariant k <= whole && k % 8 == 0 && cur == cur0 + k && src == src0 + k
      invariant Copied(buf[..], out, dist, cur0, src0, k)
      decreases whole - k
    {
      CopyWord(buf, cur, src, cur0, src0, dist, k, out);
      CopyWord(buf, cur + 4, src + 4, cur0, src0, dist, k + 4, out);
      cur, src, k := cur + 8, src + 8, k + 8;
    }
    var counter := len % 8;
    if counter < 3 {
      CopyRest(buf, cur, src, counter, cur0, src0, dist, k, out);
    } else {
      CopyThrees(buf, cur0, src0, dist, whole, len, out);
    }
  }

  /** A match of any allowed length and distance, by whichever copy: the output goes on as section
      3.2.5 of RFC 1951 says, as far as the buffer has room. */
  method CopyMatch(buf: array<nat>, cur0: nat, dist: nat, len: nat, ghost out: seq<nat>)
    returns (cur: nat, pos: nat, counter: nat)
    requires buf.Length > 0 && Window(buf[..], out) && Stands(cur0, buf.Length, |out|)
    requires 1 <= dist <= |out| && dist <= buf.Length && 3 <= len <= 258
    modifies buf
    ensures counter <= len && (counter == 0 || cur == buf.Length) && cur == cur0 + (len - counter) <= buf.Length && pos == cur
    ensures Masked(buf[..], out, dist, len - counter, cur, pos)
  {
    hide Place, Window;
    pos := cur0;
    StandsIsPlace(cur0, buf.Length, |out|);
    PlacesMove(pos, |out|, 0 - dist, buf.Length);
    var src := Place(pos - dist, buf.Length);
    if (if cur0 < src then src else cur0) + len > buf.Length {
      cur, pos, counter := CopyMasked(buf, cur0, pos, dist, len, out);
    } else {
      if 9 <= len <= dist {
        CopyWords(buf, cur0, src, dist, len, out);
      } else {
        CopyThrees(buf, cur0, src, dist, 0, len, out);
      }
      Landed(buf[..], out, dist, cur0, src, len);
      cur, pos, counter := cur0 + len, pos + len, 0;
    }
  }

  lemma StandsIsPlace(cur: nat, n: nat, len: nat)
    requires n > 0 && Stands(cur, n, len)
    ensures Place(cur, n) == Place(len, n)
  {
    if cur == n {
      PlaceOfEnd(n);
    } else {
      PlaceInside(cur, n);
    }
  }

  lemma Landed(buf: seq<nat>, out: seq<nat>, dist: nat, cur0: nat, src0: nat, len: nat)
    requires Copied(buf, out, dist, cur0, src0, len) && len > 0
    ensures Masked(buf, out, dist, len, cur0 + len, cur0 + len)
  {
    hide Place;
    PlaceMoves(|out|, len, |buf|);
    StandsIsPlace(cur0 + len, |buf|, |out| + len);
  }

  // Where the buffer does not wrap, it begins with the output.
  lemma LinearWindow(buf: seq<nat>, out: seq<nat>)
    requires |out| <= |buf| && |buf| > 0
    ensures Window(buf, out) <==> buf[..|out|] == out
    ensures Stands(|out|, |buf|, |out|)
  {
    forall t | 0 <= t < |out| ensures Place(t, |buf|) == t {
      PlaceInside(t, |buf|);
    }
    if |out| == |buf| {
      PlaceOfEnd(|buf|);
    } else {
      PlaceInside(|out|, |buf|);
    }
    if Window(buf, out) {
      forall t | 0 <= t < |out| ensures buf[t] == out[t] {
        assert buf[Place(t, |buf|)] == out[t];
      }
    }
  }
}
