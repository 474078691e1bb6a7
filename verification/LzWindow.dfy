// The sliding dictionary and what recorded codes say about the source
// (kernel/miniz/miniz.c:1438-1480, 1720-1761).
module LzWindow {
  import opened Tokens

  const LZ_DICT_LENGTH := 33025

  // The dictionary holds the `back` bytes before position pos of the source and the `ahead`
  // bytes from there on; its first bytes are repeated behind its end.
  ghost predicate Windowed(d: seq<Byte>, src: seq<Byte>, pos: nat, ahead: nat, back: nat)
  {
    && |d| == LZ_DICT_LENGTH && ahead <= MAX_MATCH_LEN && back + ahead <= LZ_DICT_SIZE
    && back <= pos && |src| == pos + ahead
    && (forall i :: pos - back <= i < |src| ==> d[i % LZ_DICT_SIZE] == src[i])
    && (forall i :: pos - back <= i < |src| && i % LZ_DICT_SIZE < MAX_MATCH_LEN - 1 ==>
        d[LZ_DICT_SIZE + i % LZ_DICT_SIZE] == src[i])
  }

  // Reading on past the wrap-around needs no masking.
  lemma WindowAt(d: seq<Byte>, src: seq<Byte>, pos: nat, ahead: nat, back: nat, base: nat, i: nat)
    requires Windowed(d, src, pos, ahead, back) && pos - back <= base && base + i < |src| && i < MAX_MATCH_LEN
    ensures base % LZ_DICT_SIZE + i < |d| && d[base % LZ_DICT_SIZE + i] == src[base + i]
  {
    var p := base % LZ_DICT_SIZE;
    if p + i < LZ_DICT_SIZE {
      assert (base + i) % LZ_DICT_SIZE == p + i;
    } else {
      assert (base + i) % LZ_DICT_SIZE == p + i - LZ_DICT_SIZE;
    }
  }

  // Writing the next source byte.
  function Written(d: seq<Byte>, at: nat, c: Byte): (r: seq<Byte>)
    requires |d| == LZ_DICT_LENGTH && at < LZ_DICT_SIZE
    ensures |r| == |d|
  {
    if at < MAX_MATCH_LEN - 1 then d[at := c][LZ_DICT_SIZE + at := c] else d[at := c]
  }

  lemma WindowWrite(d: seq<Byte>, src: seq<Byte>, pos: nat, ahead: nat, back: nat, c: Byte)
    requires Windowed(d, src, pos, ahead, back) && ahead < MAX_MATCH_LEN && back + ahead < LZ_DICT_SIZE
    ensures Windowed(Written(d, |src| % LZ_DICT_SIZE, c), src + [c], pos, ahead + 1, back)
  {
    var at, r := |src| % LZ_DICT_SIZE, Written(d, |src| % LZ_DICT_SIZE, c);
    forall i | pos - back <= i < |src|
      ensures i % LZ_DICT_SIZE != at
    {
      Residues(i, |src|);
    }
    assert forall k :: 0 <= k < LZ_DICT_SIZE && k != at ==> r[k] == d[k];
    assert forall k :: LZ_DICT_SIZE <= k < LZ_DICT_LENGTH && k != LZ_DICT_SIZE + at ==> r[k] == d[k];
  }

  lemma Residues(i: nat, j: nat)
    requires i < j < i + LZ_DICT_SIZE
    ensures i % LZ_DICT_SIZE != j % LZ_DICT_SIZE
  {
  }

  lemma WindowShrinks(d: seq<Byte>, src: seq<Byte>, pos: nat, ahead: nat, back: nat, back': nat)
    requires Windowed(d, src, pos, ahead, back) && back' <= back
    ensures Windowed(d, src, pos, ahead, back')
  {
  }

  lemma WindowMoves(d: seq<Byte>, src: seq<Byte>, pos: nat, ahead: nat, back: nat, n: nat)
    requires Windowed(d, src, pos, ahead, back) && n <= ahead
    ensures Windowed(d, src, pos + n, ahead - n, back + n)
  {
  }

  // ---------------------------------------------------------------------------------

  // The len bytes at pos repeat those dist bytes earlier.
  ghost predicate Genuine(src: seq<Byte>, pos: nat, dist: nat, len: nat)
  {
    && 1 <= dist <= pos && pos + len <= |src|
    && forall j :: pos <= j < pos + len ==> src[j] == src[j - dist]
  }

  lemma {:induction false} CopyRepeats(src: seq<Byte>, pos: nat, dist: nat, len: nat)
    requires Genuine(src, pos, dist, len)
    ensures CopyBack(src[..pos], dist, len) == src[..pos + len]
    decreases len
  {
    if len > 0 {
      assert src[..pos] + [src[..pos][pos - dist]] == src[..pos + 1];
      CopyRepeats(src, pos + 1, dist, len - 1);
    }
  }

  lemma {:induction false} ValidSnoc(ts: seq<Token>, n: nat, out: seq<Byte>, t: Token)
    requires ValidTokens(ts, n) && |out| == n && ValidToken(t, |Replay(out, ts)|)
    ensures ValidTokens(ts + [t], n) && Replay(out, ts + [t]) == Apply(Replay(out, ts), t)
    decreases |ts|
  {
    hide Apply;
    if ts == [] {
      assert [t][1..] == [];
    } else {
      ApplyLength(out, ts[0]);
      ValidSnoc(ts[1..], n + TokenSize(ts[0]), Apply(out, ts[0]), t);
      assert (ts + [t])[1..] == ts[1..] + [t];
    }
  }

  lemma ApplyLength(out: seq<Byte>, t: Token)
    requires ValidToken(t, |out|)
    ensures |Apply(out, t)| == |out| + TokenSize(t)
  {
  }

  // The codes recorded since position `start` replay to the next `total` source bytes.
  ghost predicate Replays(src: seq<Byte>, start: nat, total: nat, ts: seq<Token>)
  {
    start + total <= |src| && ValidTokens(ts, start) && Replay(src[..start], ts) == src[..start + total]
  }

  lemma ReplaysNothing(src: seq<Byte>, start: nat)
    requires start <= |src|
    ensures Replays(src, start, 0, [])
  {
  }

  lemma ReplaysLiteral(src: seq<Byte>, start: nat, total: nat, ts: seq<Token>)
    requires Replays(src, start, total, ts) && start + total < |src|
    ensures Replays(src, start, total + 1, ts + [Literal(src[start + total])])
  {
    ValidSnoc(ts, start, src[..start], Literal(src[start + total]));
    assert src[..start + total] + [src[start + total]] == src[..start + total + 1];
  }

  lemma ReplaysMatch(src: seq<Byte>, start: nat, total: nat, ts: seq<Token>, len: nat, dist: nat)
    requires Replays(src, start, total, ts) && MIN_MATCH_LEN <= len <= MAX_MATCH_LEN && dist <= LZ_DICT_SIZE
    requires Genuine(src, start + total, dist, len)
    ensures Replays(src, start, total + len, ts + [Match(len, dist)])
  {
    ValidSnoc(ts, start, src[..start], Match(len, dist));
    CopyRepeats(src, start + total, dist, len);
  }

  // More source does not disturb what has been recorded.
  lemma ReplaysMore(src: seq<Byte>, more: seq<Byte>, start: nat, total: nat, ts: seq<Token>)
    requires Replays(src, start, total, ts)
    ensures Replays(src + more, start, total, ts)
  {
    assert (src + more)[..start] == src[..start] && (src + more)[..start + total] == src[..start + total];
  }

  // The lazy parser's state: everything before pos has been recorded, except the byte whose
  // match is being held back.
  datatype Saved = Saved(len: nat, dist: nat, lit: Byte)

  ghost predicate Parsed(src: seq<Byte>, pos: nat, start: nat, total: nat, s: Saved, ts: seq<Token>)
  {
    && Replays(src, start, total, ts)
    && start + total + (if s.len != 0 then 1 else 0) == pos <= |src|
    && (s.len != 0 ==>
          && MIN_MATCH_LEN <= s.len < 128 && s.dist <= LZ_DICT_SIZE
          && Genuine(src, pos - 1, s.dist, s.len) && s.lit == src[pos - 1])
  }

  lemma ParsedMore(src: seq<Byte>, more: seq<Byte>, pos: nat, start: nat, total: nat, s: Saved, ts: seq<Token>)
    requires Parsed(src, pos, start, total, s, ts)
    ensures Parsed(src + more, pos, start, total, s, ts)
  {
    hide Replays;
    ReplaysMore(src, more, start, total, ts);
  }
}
