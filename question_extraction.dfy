/** How the page pulls a generated question out of the relay's reply: the
    regular expression `\*\*Question\*\*:\s*(.+?)(?:\n|$)` (no flags), its first
    capture trimmed, or the whole reply trimmed when the expression does not
    match. The expression is modelled as the backtracking search the
    JavaScript engine performs: leftmost start first, then the greedy `\s*`
    giving back one character at a time, the lazy `.+?` stopping at the first
    `\n` or at the end of the input, `.` matching anything but a line
    terminator. */
module QuestionExtraction {
  import opened Text
  import opened Protocol

  const Marker: string := "**Question**:"

  predicate NoLineTerminator(s: string)
  {
    forall i :: 0 <= i < |s| ==> !IsLineTerminator(s[i])
  }

  /** The expression matches `t` at index `i`, with `\s*` covering
      `t[i + |Marker|..s]` and the capture being `t[s..e]`. */
  predicate IsMatch(t: string, i: int, s: int, e: int)
  {
    0 <= i && OccursAt(t, Marker, i) && i + |Marker| <= s < e <= |t| &&
    AllWhitespace(t[i + |Marker|..s]) && NoLineTerminator(t[s..e]) &&
    (e == |t| || t[e] == '\n')
  }

  /** The first line terminator at or after `k`, or the end of `t`. */
  function LineEnd(t: string, k: nat): (e: nat)
    requires k <= |t|
    ensures k <= e <= |t|
    ensures NoLineTerminator(t[k..e])
    ensures e < |t| ==> IsLineTerminator(t[e])
    decreases |t| - k
  {
    if k == |t| || IsLineTerminator(t[k]) then k else LineEnd(t, k + 1)
  }

  /** The end of the run of whitespace that starts at `k`: how far the greedy
      `\s*` first reaches. */
  function SpaceEnd(t: string, k: nat): (m: nat)
    requires k <= |t|
    ensures k <= m <= |t|
    ensures AllWhitespace(t[k..m])
    ensures m < |t| ==> !IsWhitespace(t[m])
    decreases |t| - k
  {
    if k == |t| || !IsWhitespace(t[k]) then k else SpaceEnd(t, k + 1)
  }

  /** `(.+?)(?:\n|$)` tried at `s`. */
  function CaptureFrom(t: string, s: nat): (c: Option<string>)
    requires s <= |t|
    ensures c.Some? <==> exists e :: s < e <= |t| && NoLineTerminator(t[s..e]) && (e == |t| || t[e] == '\n')
    ensures c.Some? ==> c == Some(t[s..LineEnd(t, s)])
  {
    var e := LineEnd(t, s);
    if e > s && (e == |t| || t[e] == '\n') then
      Some(t[s..e])
    else
      None
  }

  /** `\s*` giving characters back: the capture is tried at `s`, then at
      `s - 1`, down to `q`, where `\s*` matches nothing. */
  function BackOff(t: string, q: nat, s: nat): (c: Option<string>)
    requires q <= s <= |t|
    ensures c.Some? <==> exists s' :: q <= s' <= s && CaptureFrom(t, s').Some?
    ensures c.Some? ==> exists s' :: q <= s' <= s && c == CaptureFrom(t, s') &&
                                     forall s2 :: s' < s2 <= s ==> CaptureFrom(t, s2).None?
    decreases s
  {
    var c := CaptureFrom(t, s);
    if c.Some? then c
    else if s == q then None
    else BackOff(t, q, s - 1)
  }

  /** The whole expression tried at index `i`. */
  function MatchAt(t: string, i: nat): (c: Option<string>)
    requires i <= |t|
    ensures c.Some? <==> exists s, e :: IsMatch(t, i, s, e)
    ensures c.Some? ==> exists s, e :: IsMatch(t, i, s, e) && c.value == t[s..e]
  {
    if OccursAt(t, Marker, i) then
      var q := i + |Marker|;
      var m := SpaceEnd(t, q);
      var c := BackOff(t, q, m);
      MatchAtSpans(t, i, m);
      c
    else
      None
  }

  /** The captures the expression can take at `i` are exactly those tried by
      backing off from the end of the whitespace run. */
  lemma MatchAtSpans(t: string, i: nat, m: nat)
    requires OccursAt(t, Marker, i) && m == SpaceEnd(t, i + |Marker|)
    ensures (exists s, e :: IsMatch(t, i, s, e)) <==>
            (exists s' :: i + |Marker| <= s' <= m && CaptureFrom(t, s').Some?)
    ensures forall s, e :: IsMatch(t, i, s, e) ==>
              i + |Marker| <= s <= m && CaptureFrom(t, s).Some?
    ensures forall s' :: i + |Marker| <= s' <= m && CaptureFrom(t, s').Some? ==>
              exists e :: IsMatch(t, i, s', e) && CaptureFrom(t, s').value == t[s'..e]
  {
    var q := i + |Marker|;
    forall s, e | IsMatch(t, i, s, e)
      ensures q <= s <= m && CaptureFrom(t, s).Some?
    {
      assert s < e <= |t| && NoLineTerminator(t[s..e]) && (e == |t| || t[e] == '\n');
    }
    forall s' | q <= s' <= m && CaptureFrom(t, s').Some?
      ensures exists e :: IsMatch(t, i, s', e) && CaptureFrom(t, s').value == t[s'..e]
    {
      var e := LineEnd(t, s');
      assert AllWhitespace(t[q..s']) by {
        assert forall k :: 0 <= k < s' - q ==> t[q..s'][k] == t[q..m][k];
      }
      assert IsMatch(t, i, s', e);
    }
  }

  /** At index `i` the engine keeps the capture that starts latest: `\s*`
      gives back as little as it can. */
  lemma MatchAtLatest(t: string, i: nat)
    requires i <= |t| && MatchAt(t, i).Some?
    ensures exists s, e :: IsMatch(t, i, s, e) && MatchAt(t, i).value == t[s..e] &&
                           forall s2, e2 :: IsMatch(t, i, s2, e2) ==> s2 <= s
  {
    var q := i + |Marker|;
    var m := SpaceEnd(t, q);
    MatchAtSpans(t, i, m);
    var s :| q <= s <= m && BackOff(t, q, m) == CaptureFrom(t, s) &&
              forall s2 :: s < s2 <= m ==> CaptureFrom(t, s2).None?;
    var e :| IsMatch(t, i, s, e) && CaptureFrom(t, s).value == t[s..e];
    assert MatchAt(t, i).value == t[s..e];
  }

  /** The search for the leftmost match, starting at index `k`. */
  function Search(t: string, k: nat): (c: Option<string>)
    requires k <= |t|
    ensures c.Some? <==> exists i, s, e :: k <= i && IsMatch(t, i, s, e)
    ensures c.Some? ==> exists i, s, e :: k <= i && IsMatch(t, i, s, e) && c.value == t[s..e]
    decreases |t| - k
  {
    var c := MatchAt(t, k);
    if c.Some? then c
    else if k == |t| then
      assert forall i, s, e :: k <= i && IsMatch(t, i, s, e) ==> i == k;
      None
    else
      assert forall i, s, e :: k <= i && IsMatch(t, i, s, e) ==> k + 1 <= i;
      Search(t, k + 1)
  }

  /** The match the engine reports when it scans from `k`: no match starts
      between `k` and `i`, and at `i` the capture starts as late as any can. */
  ghost predicate FirstMatch(t: string, k: int, i: int, s: int, e: int)
  {
    k <= i && IsMatch(t, i, s, e) &&
    (forall j, s2, e2 :: k <= j < i ==> !IsMatch(t, j, s2, e2)) &&
    (forall s2, e2 :: IsMatch(t, i, s2, e2) ==> s2 <= s)
  }

  /** What the search finds is the first match. */
  lemma {:induction false} SearchFindsFirst(t: string, k: nat)
    requires k <= |t| && Search(t, k).Some?
    ensures exists i, s, e :: FirstMatch(t, k, i, s, e) && Search(t, k).value == t[s..e]
    decreases |t| - k
  {
    if MatchAt(t, k).Some? {
      MatchAtLatest(t, k);
      var s, e :| IsMatch(t, k, s, e) && MatchAt(t, k).value == t[s..e] &&
                  forall s2, e2 :: IsMatch(t, k, s2, e2) ==> s2 <= s;
      assert FirstMatch(t, k, k, s, e);
    } else {
      SearchFindsFirst(t, k + 1);
      var i, s, e :| FirstMatch(t, k + 1, i, s, e) && Search(t, k + 1).value == t[s..e];
      assert FirstMatch(t, k, i, s, e);
    }
  }

  /** A match ends at the first line terminator after its capture starts. */
  lemma MatchEndsAtLineEnd(t: string, i: int, s: int, e: int)
    requires IsMatch(t, i, s, e)
    ensures e == LineEnd(t, s)
  {
    LineEndAt(t, s, e);
  }

  /** There is only one first match: the contract of the extraction
      determines its result. */
  lemma FirstMatchUnique(t: string, k: int, i: int, s: int, e: int, i2: int, s2: int, e2: int)
    requires FirstMatch(t, k, i, s, e) && FirstMatch(t, k, i2, s2, e2)
    ensures i == i2 && s == s2 && e == e2
  {
    MatchEndsAtLineEnd(t, i, s, e);
    MatchEndsAtLineEnd(t, i2, s2, e2);
  }

  /** `data.feedback.match(...)`: the first capture, trimmed, when the
      expression matches; the whole reply, trimmed, when it does not. The
      capture is the one of the first match: leftmost marker, latest start. */
  function ExtractQuestion(reply: string): (q: string)
    ensures (exists i, s, e :: FirstMatch(reply, 0, i, s, e) && q == Trim(reply[s..e])) ||
            ((forall i, s, e :: !IsMatch(reply, i, s, e)) && q == Trim(reply))
  {
    match Search(reply, 0)
    case Some(c) => SearchFindsFirst(reply, 0); Trim(c)
    case None => Trim(reply)
  }

  /** The greedy `\s*` runs over a blank line: when the marker is followed by
      a space, a line break and a question that runs to the end of the reply,
      the question is that next line, not the blank. */
  lemma BlankAfterMarkerIsSkipped()
    ensures ExtractQuestion(Marker + " \n" + "What?") == "What?"
  {
    var ws, line := " \n", "What?";
    assert AllWhitespace(ws);
    assert NoLineTerminator(line);
    assert [] + Marker + ws + line + [] == Marker + ws + line;
    MarkedLineIsTheQuestion([], ws, line, []);
    TrimPadded([], line, []);
    assert [] + line + [] == line;
  }

  /** The other side of the greedy `\s*`: when the line after the blank one
      ends in `\r` (a CRLF line ending), no capture can start on it, so `\s*`
      gives back the line break and the lone space before it is captured.
      The question is then empty. */
  lemma CarriageReturnAfterBlankLine(pre: string, line: string, rest: string)
    requires forall j :: 0 <= j < |pre| ==>
               !OccursAt(pre + Marker + " \n" + line + ("\r" + rest), Marker, j)
    requires line != [] && !IsWhitespace(line[0]) && NoLineTerminator(line)
    ensures ExtractQuestion(pre + Marker + " \n" + line + ("\r" + rest)) == ""
  {
    var t := pre + Marker + " \n" + line + ("\r" + rest);
    var q := |pre| + |Marker|;
    var s := q + 2;
    var r := s + |line|;
    MarkedLayout(pre, " \n", line, "\r" + rest);
    assert t[q] == ' ' && t[q + 1] == '\n' by {
      assert t[q..s][0] == t[q] && t[q..s][1] == t[q + 1];
    }
    assert t[s] == line[0];
    assert AllWhitespace(t[q..s]);
    SpaceEndAt(t, q, s);
    LineEndAt(t, s, r);
    LineEndAt(t, q + 1, q + 1);
    LineEndAt(t, q, q + 1);
    assert CaptureFrom(t, s) == None;
    assert CaptureFrom(t, q + 1) == None;
    assert t[q..q + 1] == " ";
    assert CaptureFrom(t, q) == Some(" ");
    assert BackOff(t, q, q) == Some(" ");
    assert BackOff(t, q, q + 1) == Some(" ");
    assert BackOff(t, q, s) == Some(" ");
    assert MatchAt(t, |pre|) == Some(" ");
    SearchSkips(t, 0, |pre|);
    assert TrimStart(" ") == [] by {
      assert " "[1..] == [];
    }
  }

  /** A reply without the marker is taken whole, trimmed. */
  lemma NoMarkerMeansWholeReply(reply: string)
    requires !Contains(reply, Marker)
    ensures ExtractQuestion(reply) == Trim(reply)
  {
  }

  /** The usual reply: before the first marker nothing matches; after it come
      whitespace (possibly blank lines), then a line that starts with a
      visible character and ends at a newline or at the end of the reply. The
      question is that line, trimmed. */
  lemma MarkedLineIsTheQuestion(pre: string, ws: string, line: string, rest: string)
    requires forall j :: 0 <= j < |pre| ==> !OccursAt(pre + Marker + ws + line + rest, Marker, j)
    requires AllWhitespace(ws)
    requires line != [] && !IsWhitespace(line[0]) && NoLineTerminator(line)
    requires rest == [] || rest[0] == '\n'
    ensures ExtractQuestion(pre + Marker + ws + line + rest) == Trim(line)
  {
    var t := pre + Marker + ws + line + rest;
    var s := |pre| + |Marker| + |ws|;
    MarkedLayout(pre, ws, line, rest);
    assert t[s] == line[0];
    LeftmostCapture(t, |pre|, s, s + |line|);
  }

  /** Where the parts of `pre + Marker + ws + line + rest` sit. */
  lemma MarkedLayout(pre: string, ws: string, line: string, rest: string)
    ensures var t := pre + Marker + ws + line + rest;
            var q := |pre| + |Marker|;
            var s := q + |ws|;
            var e := s + |line|;
            && |t| == e + |rest|
            && OccursAt(t, Marker, |pre|) && t[q..s] == ws && t[s..e] == line
            && (e < |t| ==> t[e] == rest[0])
  {
    var t := pre + Marker + ws + line + rest;
    assert t == pre + Marker + (ws + line + rest);
    OccursInConcat(pre, Marker, ws + line + rest);
    assert t == (pre + Marker) + ws + (line + rest);
    OccursInConcat(pre + Marker, ws, line + rest);
    OccursInConcat(pre + Marker + ws, line, rest);
  }

  /** At the leftmost start `i`, when `\s*` can reach the visible character
      at `s` and the line from there ends properly, the capture is that line. */
  lemma LeftmostCapture(t: string, i: nat, s: nat, e: nat)
    requires forall j :: 0 <= j < i ==> !OccursAt(t, Marker, j)
    requires OccursAt(t, Marker, i) && i + |Marker| <= s < e <= |t| && !IsWhitespace(t[s])
    requires AllWhitespace(t[i + |Marker|..s]) && NoLineTerminator(t[s..e])
    requires e == |t| || t[e] == '\n'
    ensures Search(t, 0) == Some(t[s..e])
  {
    SearchSkips(t, 0, i);
    MatchAtVisible(t, i, s, e);
  }

  lemma MatchAtVisible(t: string, i: nat, s: nat, e: nat)
    requires OccursAt(t, Marker, i) && i + |Marker| <= s < e <= |t| && !IsWhitespace(t[s])
    requires AllWhitespace(t[i + |Marker|..s]) && NoLineTerminator(t[s..e])
    requires e == |t| || t[e] == '\n'
    ensures MatchAt(t, i) == Some(t[s..e])
  {
    var q := i + |Marker|;
    SpaceEndAt(t, q, s);
    LineEndAt(t, s, e);
    assert CaptureFrom(t, s) == Some(t[s..e]);
    assert BackOff(t, q, s) == Some(t[s..e]);
  }

  lemma SpaceEndAt(t: string, q: nat, s: nat)
    requires q <= s < |t| && AllWhitespace(t[q..s]) && !IsWhitespace(t[s])
    ensures SpaceEnd(t, q) == s
  {
  }

  lemma LineEndAt(t: string, s: nat, e: nat)
    requires s <= e <= |t| && NoLineTerminator(t[s..e])
    requires e == |t| || IsLineTerminator(t[e])
    ensures LineEnd(t, s) == e
  {
  }

  /** The search passes over every index before the first marker. */
  lemma {:induction false} SearchSkips(t: string, k: nat, i: nat)
    requires k <= i <= |t|
    requires forall j :: 0 <= j < i ==> !OccursAt(t, Marker, j)
    ensures Search(t, k) == Search(t, i)
    decreases i - k
  {
    if k < i {
      assert MatchAt(t, k) == None;
      SearchSkips(t, k + 1, i);
    }
  }

  /** A reply whose only marker is followed, on the same line, by a question
      that ends in a carriage return (a CRLF line ending) does not match: the
      `.` of the expression stops at the `\r`, which is not the `\n` the
      expression needs. The whole reply, trimmed, is taken instead. */
  lemma CarriageReturnDefeatsMarker(pre: string, sp: string, line: string, rest: string)
    requires AllWhitespace(sp) && NoLineTerminator(sp)
    requires line != [] && !IsWhitespace(line[0]) && NoLineTerminator(line)
    requires var t := pre + Marker + sp + line + "\r" + rest;
             forall j :: 0 <= j <= |t| && j != |pre| ==> !OccursAt(t, Marker, j)
    ensures var t := pre + Marker + sp + line + "\r" + rest;
            ExtractQuestion(t) == Trim(t)
  {
    var t := pre + Marker + sp + line + "\r" + rest;
    var q := |pre| + |Marker|;
    var k := q + |sp|;
    var r := k + |line|;
    MarkedLayout(pre, sp, line, "\r" + rest);
    assert t[k] == line[0];
    forall j | q <= j < r
      ensures !IsLineTerminator(t[j])
    {
      if j < k {
        assert t[j] == sp[j - q] == t[q..k][j - q];
      } else {
        assert t[j] == line[j - k] == t[k..r][j - k];
      }
    }
    forall j | q <= j < k
      ensures IsWhitespace(t[j])
    {
      assert t[j] == sp[j - q] == t[q..k][j - q];
    }
    StopsAtCarriageReturn(t, |pre|, k, r);
  }

  /** When the only marker is followed by whitespace up to a visible
      character at `k`, and the line from there runs into a `\r` at `r`
      before any other line terminator, nothing matches. */
  lemma StopsAtCarriageReturn(t: string, i: nat, k: nat, r: nat)
    requires forall j :: 0 <= j <= |t| && j != i ==> !OccursAt(t, Marker, j)
    requires i + |Marker| <= k < r < |t| && t[r] == '\r' && !IsWhitespace(t[k])
    requires forall j :: i + |Marker| <= j < k ==> IsWhitespace(t[j])
    requires forall j :: i + |Marker| <= j < r ==> !IsLineTerminator(t[j])
    ensures forall i', s, e :: !IsMatch(t, i', s, e)
  {
    var q := i + |Marker|;
    forall i', s, e
      ensures !IsMatch(t, i', s, e)
    {
      if 0 <= i' && OccursAt(t, Marker, i') && i' + |Marker| <= s < e <= |t| &&
         AllWhitespace(t[i' + |Marker|..s]) && NoLineTerminator(t[s..e])
      {
        assert i' == i;
        forall j | q <= j < s
          ensures IsWhitespace(t[j])
        {
          assert t[j] == t[q..s][j - q];
        }
        forall j | s <= j < e
          ensures !IsLineTerminator(t[j])
        {
          assert t[j] == t[s..e][j - s];
        }
        assert s <= k;
        assert e <= r;
        assert e < |t| && t[e] != '\n';
      }
    }
  }
}
