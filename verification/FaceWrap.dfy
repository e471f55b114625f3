/**
 The talking face of applications_user/nikita_buddy/nikita_face.c: text is wrapped into a box of short
 lines, typed out tick by tick, and scrolled.

 The wrapping loop is proved to keep, at every character, what the finished lines, the current line
 and the rest of the text have to say together (Kept), that the current line never ends inside a word
 (Between), and how many line breaks have been seen while there was no word (CountedSoFar).  The box
 is a small state machine whose steps are the calls of the view and the keys.
 */
module FaceWrap {
  import opened Common

  const COLS: nat := 20
  const MAX_LINES: nat := 48
  const WINDOW: nat := 2

  // ----- words -----

  predicate Space(c: char) {
    c == ' ' || c == '\t'
  }

  predicate Newline(c: char) {
    c == '\n' || c == '\r'
  }

  predicate Blank(c: char) {
    Space(c) || Newline(c)
  }

  /** The length of the word at the start. */
  function WordLength(s: string): (n: nat)
    ensures n <= |s|
  {
    if s == "" || Blank(s[0]) then 0 else 1 + WordLength(s[1..])
  }

  lemma {:induction false} WordLengthMeans(s: string)
    ensures forall i :: 0 <= i < WordLength(s) ==> !Blank(s[i])
    ensures WordLength(s) < |s| ==> Blank(s[WordLength(s)])
  {
    if s != "" && !Blank(s[0]) {
      WordLengthMeans(s[1..]);
    }
  }

  function Words(s: string): seq<string>
    decreases |s|
  {
    if s == "" then []
    else if Blank(s[0]) then Words(s[1..])
    else
      assert WordLength(s) > 0;
      [s[..WordLength(s)]] + Words(s[WordLength(s)..])
  }

  function LineWords(lines: seq<string>): seq<string> {
    if lines == [] then [] else LineWords(lines[..|lines| - 1]) + Words(lines[|lines| - 1])
  }

  function CutAll(words: seq<string>): (r: seq<string>)
    ensures |r| == |words|
  {
    seq(|words|, i requires 0 <= i < |words| => Cut(words[i], COLS))
  }

  ghost predicate IsWord(w: string) {
    w != "" && forall i :: 0 <= i < |w| ==> !Blank(w[i])
  }

  ghost predicate EndsBlank(s: string) {
    s == "" || Blank(s[|s| - 1])
  }

  lemma WordAlone(w: string)
    requires IsWord(w)
    ensures Words(w) == [w]
  {
    WordLengthMeans(w);
    assert WordLength(w) == |w|;
    assert w[..|w|] == w;
  }

  lemma {:induction false} WordLengthAppend(s: string, t: string)
    requires s != "" && !Blank(s[0]) && (WordLength(s) < |s| || t == "" || Blank(t[0]))
    ensures WordLength(s + t) == WordLength(s)
    decreases |s|
  {
    assert (s + t)[1..] == s[1..] + t;
    if s[1..] == "" {
      assert s[1..] + t == t;
    } else if !Blank(s[1]) {
      WordLengthAppend(s[1..], t);
    }
  }

  /** Texts that do not meet inside a word. */
  lemma {:induction false} WordsAppend(s: string, t: string)
    requires EndsBlank(s) || t == "" || Blank(t[0])
    ensures Words(s + t) == Words(s) + Words(t)
    decreases |s|
  {
    if s == "" {
      assert s + t == t;
    } else if Blank(s[0]) {
      assert (s + t)[1..] == s[1..] + t && (s + t)[0] == s[0];
      WordsAppend(s[1..], t);
      assert Words(s) == Words(s[1..]) && Words(s + t) == Words(s[1..] + t);
    } else {
      var n := WordLength(s);
      FirstWordStays(s, t);
      WordsAppend(s[n..], t);
      assert Words(s) == [s[..n]] + Words(s[n..]);
      MoveWords([s[..n]], Words(s[n..]), Words(t));
    }
  }

  lemma WordEnds(s: string, t: string)
    requires s != "" && (EndsBlank(s) || t == "" || Blank(t[0]))
    ensures WordLength(s) < |s| || t == "" || Blank(t[0])
  {
    WordLengthMeans(s);
  }

  lemma FirstWord(s: string, n: nat, first: string, rest: string)
    requires s != "" && !Blank(s[0]) && n == WordLength(s) && first == s[..n] && rest == s[n..]
    ensures Words(s) == [first] + Words(rest)
  {
  }

  lemma SliceAppend(s: string, t: string, n: nat)
    requires n <= |s|
    ensures (s + t)[n..] == s[n..] + t && (s + t)[..n] == s[..n]
    ensures s != "" ==> (s + t)[0] == s[0]
  {
  }

  lemma FirstWordStays(s: string, t: string)
    requires s != "" && !Blank(s[0]) && (EndsBlank(s) || t == "" || Blank(t[0]))
    ensures var n := WordLength(s); Words(s + t) == [s[..n]] + Words(s[n..] + t)
  {
    var n := WordLength(s);
    WordEnds(s, t);
    WordLengthAppend(s, t);
    SliceAppend(s, t, n);
    FirstWord(s + t, n, s[..n], s[n..] + t);
  }

  // ----- wrapping -----

  /** What the finished lines, the current line and the rest of the text have to say together. */
  ghost predicate Kept(text: string, p: nat, lines: seq<string>, cur: string) {
    p <= |text| && CutAll(Words(text)) == LineWords(lines) + (Words(cur) + CutAll(Words(text[p..])))
  }

  /** The current line ends where the text is between words, or it is full. */
  ghost predicate Between(text: string, p: nat, cur: string) {
    p <= |text| && (EndsBlank(cur) || |cur| == COLS || p == |text| || Blank(text[p]))
  }

  function Newlines(text: string): nat {
    if text == "" then 0 else (if Newline(text[0]) then 1 else 0) + Newlines(text[1..])
  }

  /** As long as there was no word, each newline has made a line and nothing else has. */
  ghost predicate CountedSoFar(text: string, p: nat, lines: seq<string>, cur: string) {
    p <= |text| && (LineWords(lines) + Words(cur) == [] ==>
      && cur == "" && |lines| + Newlines(text[p..]) == Newlines(text)
      && forall i :: 0 <= i < |lines| ==> lines[i] == "")
  }

  ghost predicate Fitting(lines: seq<string>) {
    |lines| <= MAX_LINES && forall i :: 0 <= i < |lines| ==> |lines[i]| <= COLS
  }

  lemma LineDone(lines: seq<string>, cur: string)
    ensures LineWords(lines + [cur]) == LineWords(lines) + Words(cur)
  {
    assert (lines + [cur])[..|lines|] == lines;
  }

  lemma BlankSkipped(text: string, p: nat)
    requires p < |text| && Blank(text[p])
    ensures Words(text[p..]) == Words(text[p + 1..])
    ensures Newlines(text[p..]) == (if Newline(text[p]) then 1 else 0) + Newlines(text[p + 1..])
  {
    assert text[p..][1..] == text[p + 1..];
  }

  lemma BlankAdded(cur: string)
    ensures Words(cur + [' ']) == Words(cur)
  {
    WordsAppend(cur, [' ']);
    assert Words([' '][1..]) == [];
  }

  lemma {:induction false} NoNewlines(w: string, rest: string)
    requires forall i :: 0 <= i < |w| ==> !Newline(w[i])
    ensures Newlines(w + rest) == Newlines(rest)
  {
    if w == "" {
      assert w + rest == rest;
    } else {
      assert (w + rest)[1..] == w[1..] + rest;
      NoNewlines(w[1..], rest);
    }
  }

  lemma WordSpan(text: string, p: nat, q: nat)
    requires p < |text| && !Blank(text[p]) && q == p + WordLength(text[p..])
    ensures p < q <= |text| && IsWord(text[p..q]) && (q < |text| ==> Blank(text[q]))
  {
    WordLengthMeans(text[p..]);
  }

  lemma WordTaken(text: string, p: nat, n: nat)
    requires p < |text| && !Blank(text[p]) && n == WordLength(text[p..])
    ensures 0 < n && p + n <= |text| && IsWord(text[p..p + n]) && (p + n < |text| ==> Blank(text[p + n]))
    ensures CutAll(Words(text[p..])) == [Cut(text[p..p + n], COLS)] + CutAll(Words(text[p + n..]))
    ensures Newlines(text[p..]) == Newlines(text[p + n..])
  {
    var s := text[p..];
    WordLengthMeans(s);
    assert s[..n] == text[p..p + n] && s[n..] == text[p + n..];
    assert Words(s) == [s[..n]] + Words(s[n..]);
    NoNewlines(s[..n], s[n..]);
    assert s == s[..n] + s[n..];
  }

  ghost predicate Wrapping(text: string, p: nat, lines: seq<string>, cur: string) {
    && Kept(text, p, lines, cur) && Between(text, p, cur) && CountedSoFar(text, p, lines, cur)
    && Fitting(lines) && |cur| <= COLS
  }

  lemma NewlineStep(text: string, p: nat, lines: seq<string>, cur: string)
    requires Wrapping(text, p, lines, cur) && p < |text| && Newline(text[p]) && |lines| < MAX_LINES
    ensures Wrapping(text, p + 1, lines + [cur], "")
  {
    BlankSkipped(text, p);
    LineDone(lines, cur);
    MoveWords(LineWords(lines), Words(cur), CutAll(Words(text[p + 1..])));
  }

  lemma SpaceStep(text: string, p: nat, lines: seq<string>, cur: string)
    requires Wrapping(text, p, lines, cur) && p < |text| && Space(text[p])
    ensures Wrapping(text, p + 1, lines, if 0 < |cur| < COLS then cur + [' '] else cur)
  {
    BlankSkipped(text, p);
    BlankAdded(cur);
  }

  lemma CutIsWord(w: string)
    requires IsWord(w)
    ensures IsWord(Cut(w, COLS)) && 0 < |Cut(w, COLS)| <= COLS
  {
  }

  lemma FitStep(text: string, p: nat, n: nat, lines: seq<string>, cur: string)
    requires Wrapping(text, p, lines, cur) && p < |text| && !Blank(text[p]) && n == WordLength(text[p..])
    requires p + n <= |text| && |cur| + |Cut(text[p..p + n], COLS)| <= COLS
    ensures Wrapping(text, p + n, lines, cur + Cut(text[p..p + n], COLS))
  {
    WordTaken(text, p, n);
    var w := Cut(text[p..p + n], COLS);
    CutIsWord(text[p..p + n]);
    AddWord(cur, w);
    FitKept(text, p, n, lines, cur, w);
  }

  lemma AddWord(cur: string, w: string)
    requires EndsBlank(cur) && IsWord(w)
    ensures Words(cur + w) == Words(cur) + [w]
  {
    WordsAppend(cur, w);
    WordAlone(w);
  }

  lemma FitKept(text: string, p: nat, n: nat, lines: seq<string>, cur: string, w: string)
    requires Kept(text, p, lines, cur) && p + n <= |text| && Words(cur + w) == Words(cur) + [w]
    requires CutAll(Words(text[p..])) == [w] + CutAll(Words(text[p + n..]))
    ensures Kept(text, p + n, lines, cur + w)
  {
    var rest := CutAll(Words(text[p + n..]));
    assert Words(cur) + ([w] + rest) == (Words(cur) + [w]) + rest;
  }

  /** One trailing blank is dropped from a line that is finished by wrapping. */
  function Trimmed(cur: string): string {
    if cur != "" && cur[|cur| - 1] == ' ' then cur[..|cur| - 1] else cur
  }

  lemma WrapStep(text: string, p: nat, lines: seq<string>, cur: string)
    requires Wrapping(text, p, lines, cur) && p < |text| && !Blank(text[p]) && |lines| < MAX_LINES && cur != ""
    ensures Wrapping(text, p, lines + [Trimmed(cur)], "")
    ensures LineWords(lines + [Trimmed(cur)]) != []
  {
    var lines' := lines + [Trimmed(cur)];
    TrimmedWords(cur);
    LineDone(lines, Trimmed(cur));
    WrapKept(text, p, lines, cur, lines');
    WrapFits(lines, cur);
  }

  lemma WrapFits(lines: seq<string>, cur: string)
    requires Fitting(lines) && |cur| <= COLS && |lines| < MAX_LINES
    ensures Fitting(lines + [Trimmed(cur)])
  {
  }

  lemma WrapKept(text: string, p: nat, lines: seq<string>, cur: string, lines': seq<string>)
    requires Kept(text, p, lines, cur) && LineWords(lines') == LineWords(lines) + Words(cur)
    ensures Kept(text, p, lines', "")
  {
    MoveWords(LineWords(lines), Words(cur), CutAll(Words(text[p..])));
    assert Words("") == [];
  }

  lemma MoveWords(a: seq<string>, b: seq<string>, c: seq<string>)
    ensures a + (b + c) == (a + b) + c && (a + b) + ([] + c) == a + (b + c)
  {
  }

  lemma TrimmedWords(cur: string)
    ensures Words(Trimmed(cur)) == Words(cur)
  {
    if Trimmed(cur) != cur {
      BlankAdded(Trimmed(cur));
      assert cur == Trimmed(cur) + [' '];
    }
  }

  // ----- where lines end -----

  /** What a line holds behind `cur` when a piece of text is written on: a blank only behind something
      and while there is a column left, words cut to twenty characters. */
  function Lay(cur: string, s: string): string
    decreases |s|
  {
    if s == "" then cur
    else if Blank(s[0]) then Lay(if 0 < |cur| < 20 then cur + [' '] else cur, s[1..])
    else
      assert WordLength(s) > 0;
      Lay(cur + Cut(s[..WordLength(s)], 20), s[WordLength(s)..])
  }

  /** Pieces that do not meet inside a word. */
  lemma {:induction false} LayAppend(cur: string, s: string, t: string)
    requires EndsBlank(s) || t == "" || Blank(t[0])
    ensures Lay(cur, s + t) == Lay(Lay(cur, s), t)
    decreases |s|
  {
    if s == "" {
      assert s + t == t;
    } else if Blank(s[0]) {
      assert (s + t)[1..] == s[1..] + t && (s + t)[0] == s[0];
      LayAppend(if 0 < |cur| < 20 then cur + [' '] else cur, s[1..], t);
    } else {
      LayFirst(cur, s, t);
      var n := WordLength(s);
      LayAppend(cur + Cut(s[..n], 20), s[n..], t);
    }
  }

  lemma LayFirst(cur: string, s: string, t: string)
    requires s != "" && !Blank(s[0]) && (EndsBlank(s) || t == "" || Blank(t[0]))
    ensures var n := WordLength(s); n > 0 && Lay(cur, s + t) == Lay(cur + Cut(s[..n], 20), s[n..] + t)
  {
    WordEnds(s, t);
    WordLengthAppend(s, t);
    SliceAppend(s, t, WordLength(s));
  }

  lemma LayBlank(cur: string, c: char)
    requires Blank(c)
    ensures Lay(cur, [c]) == if 0 < |cur| < 20 then cur + [' '] else cur
  {
    assert [c][1..] == "";
  }

  lemma LayWord(cur: string, w: string)
    requires IsWord(w)
    ensures Lay(cur, w) == cur + Cut(w, 20)
  {
    WordLengthMeans(w);
    assert w[..|w|] == w && w[|w|..] == "";
  }

  ghost predicate NoBreak(s: string) {
    forall i :: 0 <= i < |s| ==> !Newline(s[i])
  }

  /** The word at the start, cut to a line. */
  function FirstCut(s: string): string {
    Cut(s[..WordLength(s)], 20)
  }

  /** A piece of the text without line breaks, and the line it makes. */
  ghost predicate Laid(piece: string, line: string) {
    NoBreak(piece) && line == Lay("", piece) && |line| <= 20
  }

  lemma LaidStart()
    ensures Laid("", "")
  {
  }

  lemma LaidSpace(piece: string, cur: string, c: char)
    requires Laid(piece, cur) && Space(c)
    ensures Laid(piece + [c], if 0 < |cur| < 20 then cur + [' '] else cur)
  {
    LayAppend("", piece, [c]);
    LayBlank(cur, c);
  }

  lemma LaidWord(piece: string, cur: string, w: string)
    requires Laid(piece, cur) && EndsBlank(piece) && IsWord(w) && |cur| + |Cut(w, 20)| <= 20
    ensures Laid(piece + w, cur + Cut(w, 20))
  {
    LayAppend("", piece, w);
    LayWord(cur, w);
  }

  /** Why a line of this piece may end in front of the rest of the text: there is a line break, or a word
      for which it has no room; in the second case a blank at its end is dropped. */
  ghost predicate Ends(piece: string, rest: string, line: string) {
    && rest != ""
    && if Newline(rest[0]) then Laid(piece, line)
       else && !Blank(rest[0]) && EndsBlank(piece)
            && exists cur :: Laid(piece, cur) && |cur| + |FirstCut(rest)| > 20 && line == Trimmed(cur)
  }

  ghost predicate EndsAt(text: string, from: nat, to: nat, line: string) {
    from <= to <= |text| && Ends(text[from..to], text[to..], line)
  }

  /** Where the line behind one that ends at `end` starts: behind the line break, or at the word. */
  function After(text: string, end: nat): nat {
    if end < |text| && Newline(text[end]) then end + 1 else end
  }

  /** Where line i starts when the lines before it end at `ends`. */
  function Start(text: string, ends: seq<nat>, i: nat): nat
    requires i <= |ends|
  {
    if i == 0 then 0 else After(text, ends[i - 1])
  }

  ghost predicate AllEnd(text: string, lines: seq<string>, ends: seq<nat>) {
    && |ends| == |lines|
    && forall i :: 0 <= i < |lines| ==> EndsAt(text, Start(text, ends, i), ends[i], lines[i])
  }

  /** The current line, from `from` on, holds what has been read since, and reading does not stop
      inside a word. */
  ghost predicate Current(text: string, from: nat, p: nat, cur: string) {
    && from <= p <= |text| && Laid(text[from..p], cur)
    && (EndsBlank(text[from..p]) || p == |text| || Blank(text[p]))
  }

  ghost predicate Laying(text: string, p: nat, lines: seq<string>, cur: string, ends: seq<nat>) {
    AllEnd(text, lines, ends) && Current(text, Start(text, ends, |ends|), p, cur)
  }

  lemma StartStays(text: string, ends: seq<nat>, to: nat, i: nat)
    requires i <= |ends|
    ensures Start(text, ends + [to], i) == Start(text, ends, i)
  {
  }

  lemma LineEnds(text: string, lines: seq<string>, ends: seq<nat>, to: nat, line: string)
    requires AllEnd(text, lines, ends) && EndsAt(text, Start(text, ends, |ends|), to, line)
    ensures AllEnd(text, lines + [line], ends + [to])
  {
    var lines', ends' := lines + [line], ends + [to];
    forall i | 0 <= i < |lines'| ensures EndsAt(text, Start(text, ends', i), ends'[i], lines'[i]) {
      StartStays(text, ends, to, i);
      if i == |lines| {
        assert lines'[i] == line && ends'[i] == to;
      } else {
        assert lines'[i] == lines[i] && ends'[i] == ends[i];
      }
    }
  }

  lemma CurrentEmpty(text: string, p: nat)
    requires p <= |text|
    ensures Current(text, p, p, "")
  {
    assert text[p..p] == "";
  }

  lemma LayNewline(text: string, p: nat, lines: seq<string>, cur: string, ends: seq<nat>)
    requires Laying(text, p, lines, cur, ends) && p < |text| && Newline(text[p])
    ensures Laying(text, p + 1, lines + [cur], "", ends + [p])
  {
    assert text[p..][0] == text[p];
    LineEnds(text, lines, ends, p, cur);
    CurrentEmpty(text, p + 1);
  }

  lemma LaySpace(text: string, p: nat, lines: seq<string>, cur: string, ends: seq<nat>)
    requires Laying(text, p, lines, cur, ends) && p < |text| && Space(text[p])
    ensures Laying(text, p + 1, lines, if 0 < |cur| < 20 then cur + [' '] else cur, ends)
  {
    CurrentSpace(text, Start(text, ends, |ends|), p, cur);
  }

  lemma CurrentSpace(text: string, from: nat, p: nat, cur: string)
    requires Current(text, from, p, cur) && p < |text| && Space(text[p])
    ensures Current(text, from, p + 1, if 0 < |cur| < 20 then cur + [' '] else cur)
  {
    var piece := text[from..p];
    assert text[from..p + 1] == piece + [text[p]];
    LaidSpace(piece, cur, text[p]);
  }

  lemma LayFits(text: string, p: nat, q: nat, lines: seq<string>, cur: string, ends: seq<nat>, w: string,
                word: string)
    requires Laying(text, p, lines, cur, ends) && p < q <= |text| && w == text[p..q]
    requires IsWord(w) && (q < |text| ==> Blank(text[q])) && word == Cut(w, 20) && |cur| + |word| <= 20
    ensures Laying(text, q, lines, cur + word, ends)
  {
    CurrentWord(text, Start(text, ends, |ends|), p, q, cur, w, word);
  }

  lemma CurrentWord(text: string, from: nat, p: nat, q: nat, cur: string, w: string, word: string)
    requires Current(text, from, p, cur) && p < q <= |text| && w == text[p..q]
    requires IsWord(w) && (q < |text| ==> Blank(text[q])) && word == Cut(w, 20) && |cur| + |word| <= 20
    ensures Current(text, from, q, cur + word)
  {
    var piece := text[from..p];
    assert text[from..q] == piece + w;
    assert !Blank(w[0]) && w[0] == text[p];
    LaidWord(piece, cur, w);
  }

  lemma LayWraps(text: string, p: nat, lines: seq<string>, cur: string, ends: seq<nat>, w: string)
    requires Laying(text, p, lines, cur, ends) && p < |text| && !Blank(text[p])
    requires w == FirstCut(text[p..]) && |cur| + |w| > 20
    ensures Laying(text, p, lines + [Trimmed(cur)], "", ends + [p])
  {
    assert text[p..][0] == text[p];
    LineEnds(text, lines, ends, p, Trimmed(cur));
    CurrentEmpty(text, p);
  }

  /** The last line may end at the end of the text. */
  ghost predicate LastAt(text: string, from: nat, to: nat, line: string) {
    to == |text| && line != "" && Current(text, from, |text|, line)
  }

  /** The lines of a text: each ends where it may, the last also at the end of the text, and only
      blanks are left over unless all 48 lines are used. */
  ghost predicate LaidOutAt(text: string, lines: seq<string>, ends: seq<nat>) {
    && |lines| == |ends| <= 48
    && (forall i :: 0 <= i < |lines| ==>
          || EndsAt(text, Start(text, ends, i), ends[i], lines[i])
          || LastAt(text, Start(text, ends, i), ends[i], lines[i]))
    && (|lines| < 48 ==> Current(text, Start(text, ends, |ends|), |text|, ""))
  }

  ghost predicate LaidOut(text: string, lines: seq<string>) {
    exists ends :: LaidOutAt(text, lines, ends)
  }

  lemma DoneLaidOut(text: string, p: nat, lines: seq<string>, cur: string, ends: seq<nat>)
    requires Laying(text, p, lines, cur, ends) && Done(text, p, lines)
    requires |lines| <= 48 && (|lines| == 48 ==> cur == "")
    ensures LaidOut(text, if cur != "" then lines + [cur] else lines)
  {
    if cur == "" {
      assert LaidOutAt(text, lines, ends);
    } else {
      LastLine(text, p, lines, cur, ends, lines + [cur], ends + [p]);
    }
  }

  lemma LastLine(text: string, p: nat, lines: seq<string>, cur: string, ends: seq<nat>,
                 lines': seq<string>, ends': seq<nat>)
    requires Laying(text, p, lines, cur, ends) && p == |text| && cur != "" && |lines| < 48
    requires lines' == lines + [cur] && ends' == ends + [p]
    ensures LaidOutAt(text, lines', ends')
  {
    forall i | 0 <= i < |lines'|
      ensures EndsAt(text, Start(text, ends', i), ends'[i], lines'[i])
           || LastAt(text, Start(text, ends', i), ends'[i], lines'[i])
    {
      StartStays(text, ends, p, i);
      if i == |lines| {
        assert lines'[i] == cur && ends'[i] == p;
      } else {
        assert lines'[i] == lines[i] && ends'[i] == ends[i];
      }
    }
    CurrentEmpty(text, |text|);
  }

  /** Where a line ends without a line break before the text does, the word behind it had no room: the
      two have at least twenty characters, although one blank may have been dropped. */
  lemma FullBeforeWord(text: string, lines: seq<string>, ends: seq<nat>, i: nat)
    requires LaidOutAt(text, lines, ends) && i < |lines| && ends[i] < |text| && !Newline(text[ends[i]])
    ensures !Blank(text[ends[i]]) && |lines[i]| + |FirstCut(text[ends[i]..])| >= 20
    ensures i + 1 < |lines| ==> FirstCut(text[ends[i]..]) <= lines[i + 1]
  {
    assert text[ends[i]..][0] == text[ends[i]];
    if i + 1 < |lines| {
      assert Start(text, ends, i + 1) == ends[i];
      NextLineStarts(text, ends[i], ends[i + 1], lines[i + 1]);
    }
  }

  /** Every line break of the text ends a line, as far as there are lines. */
  lemma BreaksEndLines(text: string, lines: seq<string>, ends: seq<nat>, q: nat)
    requires LaidOutAt(text, lines, ends) && q < |text| && Newline(text[q])
    requires |lines| < 48 || q < Start(text, ends, |ends|)
    ensures q in ends
  {
    if Start(text, ends, |ends|) <= q { NoBreakLeft(text, lines, ends, q); }
    forall i | 0 <= i < |ends| && Start(text, ends, i) <= q
      ensures ends[i] <= q && (ends[i] < q ==> Start(text, ends, i + 1) <= q)
    {
      BreakNotBefore(text, lines, ends, q, i);
    }
    BreakFrom(text, ends, q, 0);
  }

  lemma {:induction false} BreakFrom(text: string, ends: seq<nat>, q: nat, i: nat)
    requires i <= |ends| && Start(text, ends, i) <= q < Start(text, ends, |ends|)
    requires forall k :: 0 <= k < |ends| && Start(text, ends, k) <= q ==>
               ends[k] <= q && (ends[k] < q ==> Start(text, ends, k + 1) <= q)
    ensures q in ends
    decreases |ends| - i
  {
    if ends[i] != q {
      BreakFrom(text, ends, q, i + 1);
    }
  }

  lemma NoBreakLeft(text: string, lines: seq<string>, ends: seq<nat>, q: nat)
    requires LaidOutAt(text, lines, ends) && |lines| < 48 && Start(text, ends, |ends|) <= q < |text|
    ensures !Newline(text[q])
  {
    BreakNotInside(text, Start(text, ends, |ends|), |text|, "", q);
  }

  lemma BreakNotBefore(text: string, lines: seq<string>, ends: seq<nat>, q: nat, i: nat)
    requires LaidOutAt(text, lines, ends) && i < |lines| && Start(text, ends, i) <= q < |text| && Newline(text[q])
    ensures ends[i] <= q && (ends[i] < q ==> Start(text, ends, i + 1) <= q)
  {
    if q < ends[i] {
      BreakInside(text, Start(text, ends, i), ends[i], lines[i], q);
    }
  }

  lemma BreakNotInside(text: string, from: nat, to: nat, line: string, q: nat)
    requires from <= q < to <= |text| && Laid(text[from..to], line)
    ensures !Newline(text[q])
  {
    assert text[from..to][q - from] == text[q];
  }

  lemma BreakInside(text: string, from: nat, to: nat, line: string, q: nat)
    requires from <= q < to <= |text| && (EndsAt(text, from, to, line) || LastAt(text, from, to, line))
    ensures !Newline(text[q])
  {
    if EndsAt(text, from, to, line) && !Newline(text[to..][0]) {
      var cur :| Laid(text[from..to], cur) && line == Trimmed(cur);
      BreakNotInside(text, from, to, cur, q);
    } else {
      BreakNotInside(text, from, to, line, q);
    }
  }

  lemma NextLineStarts(text: string, from: nat, to: nat, line: string)
    requires from < |text| && !Blank(text[from]) && (EndsAt(text, from, to, line) || LastAt(text, from, to, line))
    ensures FirstCut(text[from..]) <= line
  {
    if EndsAt(text, from, to, line) {
      assert text[from..to] + text[to..] == text[from..];
      EndsWithWord(text[from..to], text[to..], line);
    } else {
      assert text[from..to] == text[from..];
      assert text[from..] + "" == text[from..];
      LaidWithWord(text[from..], "", line);
    }
  }

  lemma EndsWithWord(piece: string, rest: string, line: string)
    requires Ends(piece, rest, line) && !Blank((piece + rest)[0])
    ensures FirstCut(piece + rest) <= line
  {
    assert piece == "" ==> piece + rest == rest;
    if piece != "" {
      var cur :| Laid(piece, cur) && (line == cur || line == Trimmed(cur));
      LaidWithWord(piece, rest, cur);
      TrimmedAfter(FirstCut(piece + rest), cur);
    }
  }

  lemma TrimmedAfter(w: string, cur: string)
    requires w <= cur && forall i :: 0 <= i < |w| ==> !Blank(w[i])
    ensures w <= Trimmed(cur)
  {
  }

  lemma LaidWithWord(piece: string, rest: string, line: string)
    requires Laid(piece, line) && piece != "" && !Blank(piece[0]) && (EndsBlank(piece) || rest == "" || Blank(rest[0]))
    ensures FirstCut(piece + rest) <= line
    ensures forall i :: 0 <= i < |FirstCut(piece + rest)| ==> !Blank(FirstCut(piece + rest)[i])
  {
    WordLengthMeans(piece);
    LayFirst("", piece, "");
    FirstWordStays(piece, rest);
    WordEnds(piece, rest);
    WordLengthAppend(piece, rest);
    SliceAppend(piece, rest, WordLength(piece));
    assert piece + "" == piece && piece[WordLength(piece)..] + "" == piece[WordLength(piece)..];
    assert "" + FirstCut(piece) == FirstCut(piece);
    LayGrows(FirstCut(piece), piece[WordLength(piece)..]);
  }

  lemma {:induction false} LayGrows(cur: string, s: string)
    ensures cur <= Lay(cur, s)
    decreases |s|
  {
    if s != "" {
      if Blank(s[0]) {
        LayGrows(if 0 < |cur| < 20 then cur + [' '] else cur, s[1..]);
      } else {
        LayGrows(cur + Cut(s[..WordLength(s)], 20), s[WordLength(s)..]);
      }
    }
  }

  /** The text is finished, or the lines are. */
  ghost predicate Done(text: string, p: nat, lines: seq<string>) {
    p == |text| || |lines| == MAX_LINES
  }

  /** What the loop keeps. */
  ghost predicate Good(text: string, p: nat, lines: seq<string>, cur: string, ends: seq<nat>) {
    Wrapping(text, p, lines, cur) && Laying(text, p, lines, cur, ends)
  }

  lemma FitLaying(text: string, p: nat, q: nat, lines: seq<string>, cur: string, ends: seq<nat>, word: string)
    requires Laying(text, p, lines, cur, ends) && p < |text| && !Blank(text[p]) && q == p + WordLength(text[p..])
    requires q <= |text| && word == Cut(text[p..q], 20) && |cur| + |word| <= 20
    ensures Laying(text, q, lines, cur + word, ends)
  {
    WordSpan(text, p, q);
    LayFits(text, p, q, lines, cur, ends, text[p..q], word);
  }

  lemma GoodFit(text: string, p: nat, q: nat, lines: seq<string>, cur: string, ends: seq<nat>, word: string)
    requires Good(text, p, lines, cur, ends) && p < |text| && !Blank(text[p]) && q == p + WordLength(text[p..])
    requires q <= |text| && word == Cut(text[p..q], 20) && |cur| + |word| <= 20
    ensures Good(text, q, lines, cur + word, ends)
  {
    FitStep(text, p, q - p, lines, cur);
    FitLaying(text, p, q, lines, cur, ends, word);
  }

  lemma GoodNewline(text: string, p: nat, lines: seq<string>, cur: string, ends: seq<nat>)
    requires Good(text, p, lines, cur, ends) && p < |text| && Newline(text[p]) && |lines| < MAX_LINES
    ensures Good(text, p + 1, lines + [cur], "", ends + [p])
  {
    NewlineStep(text, p, lines, cur);
    LayNewline(text, p, lines, cur, ends);
  }

  lemma GoodSpace(text: string, p: nat, lines: seq<string>, cur: string, ends: seq<nat>, next: string)
    requires Good(text, p, lines, cur, ends) && p < |text| && Space(text[p])
    requires next == if 0 < |cur| < 20 then cur + [' '] else cur
    ensures Good(text, p + 1, lines, next, ends)
  {
    SpaceStep(text, p, lines, cur);
    LaySpace(text, p, lines, cur, ends);
  }

  lemma GoodWrap(text: string, p: nat, lines: seq<string>, cur: string, ends: seq<nat>, trimmed: string)
    requires Good(text, p, lines, cur, ends) && p < |text| && !Blank(text[p]) && |lines| < MAX_LINES
    requires |cur| + |FirstCut(text[p..])| > 20 && trimmed == Trimmed(cur)
    ensures Good(text, p, lines + [trimmed], "", ends + [p])
  {
    WrapStep(text, p, lines, cur);
    LayWraps(text, p, lines, cur, ends, FirstCut(text[p..]));
  }

  lemma CutWord(text: string, p: nat, q: nat)
    requires p < |text| && q == p + WordLength(text[p..])
    ensures q <= |text| && Cut(text[p..q], 20) == FirstCut(text[p..])
  {
    assert text[p..q] == text[p..][..q - p];
  }

  /** The wrapping loop of face_wrap: finished lines and the current one. */
  method WrapAll(text: string) returns (lines: seq<string>, cur: string, ghost p': nat, ghost ends: seq<nat>)
    ensures Good(text, p', lines, cur, ends) && Done(text, p', lines) && (|lines| == MAX_LINES ==> cur == "")
  {
    var p := 0;
    lines, cur, ends := [], "", [];
    WrapStart(text);
    while p < |text| && |lines| < MAX_LINES
      invariant Good(text, p, lines, cur, ends) && (|lines| == MAX_LINES ==> cur == "")
      decreases |text| - p
    {
      var full;
      p, lines, cur, full, ends := Advance(text, p, lines, cur, ends);
      if full { break; }
    }
    p' := p;
  }

  /** One turn of the loop: a line break, a blank or a word. */
  method Advance(text: string, p0: nat, lines0: seq<string>, cur0: string, ghost ends0: seq<nat>)
    returns (p: nat, lines: seq<string>, cur: string, full: bool, ghost ends: seq<nat>)
    requires Good(text, p0, lines0, cur0, ends0) && p0 < |text| && |lines0| < MAX_LINES
    ensures Good(text, p, lines, cur, ends) && (|lines| == MAX_LINES ==> cur == "")
    ensures if full then |lines| == MAX_LINES else p > p0
  {
    if Newline(text[p0]) {
      GoodNewline(text, p0, lines0, cur0, ends0);
      return p0 + 1, lines0 + [cur0], "", false, ends0 + [p0];
    }
    if Space(text[p0]) {
      cur := if 0 < |cur0| < COLS then cur0 + [' '] else cur0;
      GoodSpace(text, p0, lines0, cur0, ends0, cur);
      return p0 + 1, lines0, cur, false, ends0;
    }
    p, lines, cur, full, ends := TakeWord(text, p0, lines0, cur0, ends0);
  }

  lemma WrapStart(text: string)
    ensures Wrapping(text, 0, [], "")
  {
    assert text[0..] == text && [] + ([] + CutAll(Words(text))) == CutAll(Words(text));
  }

  /** A word goes into the current line if it fits, otherwise into a new one; when there is no new
      line left the word is not taken. */
  method TakeWord(text: string, p0: nat, lines0: seq<string>, cur0: string, ghost ends0: seq<nat>)
    returns (p: nat, lines: seq<string>, cur: string, full: bool, ghost ends: seq<nat>)
    requires Good(text, p0, lines0, cur0, ends0) && p0 < |text| && !Blank(text[p0]) && |lines0| < MAX_LINES
    ensures Good(text, p, lines, cur, ends) && p >= p0
    ensures if full then |lines| == MAX_LINES && cur == "" else p > p0 && |lines| < MAX_LINES
  {
    p := SkipWord(text, p0);
    ends := ends0;
    CutWord(text, p0, p);
    var word := Cut(text[p0..p], COLS);
    if |cur0| + |word| > COLS {
      GoodWrap(text, p0, lines0, cur0, ends0, Trimmed(cur0));
      ends := ends0 + [p0];
    }
    lines, cur, full := MakeRoom(lines0, cur0, |word|);
    if full { return p0, lines, cur, true, ends; }
    GoodFit(text, p0, p, lines, cur, ends, word);
    cur := cur + word;
  }

  /** A word of wl characters that does not fit ends the current line. */
  method MakeRoom(lines0: seq<string>, cur0: string, wl: nat) returns (lines: seq<string>, cur: string, full: bool)
    requires wl <= COLS && |lines0| < MAX_LINES
    ensures |cur0| + wl <= COLS ==> lines == lines0 && cur == cur0
    ensures |cur0| + wl > COLS ==> lines == lines0 + [Trimmed(cur0)] && cur == ""
    ensures full <==> |lines| == MAX_LINES
  {
    lines, cur, full := lines0, cur0, false;
    if |cur| + wl > COLS {
      if cur[|cur| - 1] == ' ' { cur := cur[..|cur| - 1]; }
      lines, cur := lines + [cur], "";
      full := |lines| == MAX_LINES;
    }
  }

  /** The inner loop to the end of a word. */
  method SkipWord(text: string, from: nat) returns (p: nat)
    requires from <= |text|
    ensures p == from + WordLength(text[from..])
  {
    p := from;
    while p < |text| && !Blank(text[p])
      invariant from <= p <= |text| && p - from + WordLength(text[p..]) == WordLength(text[from..])
    {
      assert text[p..][1..] == text[p + 1..];
      p := p + 1;
    }
  }

  /** The words in the lines are those of the text in order, each cut to the width of a line; only
      when all lines are used may words be missing, and then only at the end. */
  ghost predicate KeepsWords(text: string, lines: seq<string>) {
    && |LineWords(lines)| <= |Words(text)|
    && LineWords(lines) == CutAll(Words(text))[..|LineWords(lines)|]
    && (|lines| < MAX_LINES ==> LineWords(lines) == CutAll(Words(text)))
  }

  lemma DoneKeepsWords(text: string, p: nat, lines: seq<string>, cur: string)
    requires Kept(text, p, lines, cur) && Done(text, p, lines) && (|lines| == MAX_LINES ==> cur == "")
    ensures KeepsWords(text, if cur != "" then lines + [cur] else lines)
  {
    LineDone(lines, cur);
    assert Words("") == [];
    MoveWords(LineWords(lines), Words(cur), CutAll(Words(text[p..])));
    assert LineWords(lines) + [] == LineWords(lines);
  }

  /** face_wrap: every line fits, words are kept and never joined, and there are no lines exactly for a
      text without words and with at most one line break. */
  method Wrap(text: string) returns (lines: seq<string>)
    ensures Fitting(lines) && KeepsWords(text, lines)
    ensures lines == [] <==> Words(text) == [] && Newlines(text) <= 1
    ensures lines != [] ==> LaidOut(text, lines)
    ensures Words(text) == [] && Newlines(text) >= 2 ==> OnlyEmpty(lines, Newlines(text))
  {
    var cur;
    ghost var p, ends;
    lines, cur, p, ends := WrapAll(text);
    DoneLaidOut(text, p, lines, cur, ends);
    DoneKeepsWords(text, p, lines, cur);
    NoLinesIff(text, p, lines, cur);
    LinesOfBlanks(text, p, lines, cur);
    if |lines| < MAX_LINES && cur != "" {
      lines := lines + [cur];
    }
    if |lines| == 1 && lines[0] == "" {
      OnlyEmptyLine();
      assert lines == [""];
      lines := [];
    }
  }

  /** One empty line for each line break, as far as there are lines. */
  ghost predicate OnlyEmpty(lines: seq<string>, breaks: nat) {
    && |lines| == (if breaks < MAX_LINES then breaks else MAX_LINES)
    && forall i :: 0 <= i < |lines| ==> lines[i] == ""
  }

  lemma LinesOfBlanks(text: string, p: nat, lines: seq<string>, cur: string)
    requires Wrapping(text, p, lines, cur) && Done(text, p, lines)
    ensures Words(text) == [] ==> cur == "" && OnlyEmpty(lines, Newlines(text))
  {
  }

  lemma NoLinesIff(text: string, p: nat, lines: seq<string>, cur: string)
    requires Wrapping(text, p, lines, cur) && Done(text, p, lines) && (|lines| == MAX_LINES ==> cur == "")
    ensures var all := if cur != "" then lines + [cur] else lines;
            all == [] || all == [""] <==> Words(text) == [] && Newlines(text) <= 1
  {
    MoveWords(LineWords(lines), Words(cur), CutAll(Words(text[p..])));
    var all := if cur != "" then lines + [cur] else lines;
    LineDone(lines, cur);
    assert LineWords(all) == LineWords(lines) + Words(cur) by { assert LineWords(lines) + [] == LineWords(lines); }
    OnlyEmptyLine();
    if LineWords(all) == [] && all != [] {
      assert all[0] == "";
      assert |all| == 1 ==> all == [""];
    }
  }

  lemma OnlyEmptyLine()
    ensures LineWords([""]) == []
  {
    LineDone([], "");
    assert [] + [""] == [""];
  }

  // ----- the box -----

  datatype Face = Face(talking: bool, lines: seq<string>, totalChars: nat, shown: nat, scroll: nat, dismissed: bool)

  function CharsUpTo(lines: seq<string>, n: nat): nat
    requires n <= |lines|
  {
    if n == 0 then 0 else CharsUpTo(lines, n - 1) + |lines[n - 1]|
  }

  function MaxScroll(lines: seq<string>): nat {
    if |lines| > WINDOW then |lines| - WINDOW else 0
  }

  predicate Typing(f: Face) {
    f.talking && f.shown < f.totalChars
  }

  predicate Box(f: Face) {
    !f.dismissed && f.lines != []
  }

  ghost predicate Inv(f: Face) {
    && Fitting(f.lines) && f.totalChars == CharsUpTo(f.lines, |f.lines|)
    && f.shown <= f.totalChars && f.scroll <= MaxScroll(f.lines)
  }

  /** The line that holds the last revealed character, searched from line i on. */
  function TypedLine(lines: seq<string>, shown: nat, i: nat): (cur: nat)
    requires i < |lines|
    ensures i <= cur < |lines|
    ensures cur > i ==> CharsUpTo(lines, cur) < shown
    ensures cur + 1 < |lines| ==> shown <= CharsUpTo(lines, cur + 1)
    decreases |lines| - i
  {
    if CharsUpTo(lines, i + 1) >= shown || i + 1 == |lines| then i else TypedLine(lines, shown, i + 1)
  }

  datatype Key = Ok | Down | Up | Other

  datatype Step =
    | SetText(text: string, newLines: seq<string>)
    | SetMood(toTalking: bool)
    | Tick
    | Press(key: Key)

  ghost function Next(f: Face, step: Step): Face {
    match step
    case SetText(_, newLines) =>
      f.(lines := newLines, totalChars := CharsUpTo(newLines, |newLines|), shown := 0, scroll := 0, dismissed := false)
    case SetMood(toTalking) =>
      if toTalking then f.(talking := true, shown := 0, scroll := 0, dismissed := false) else f.(talking := false)
    case Tick =>
      if !Typing(f) || f.lines == [] then f
      else
        var shown := if f.shown + 2 > f.totalChars then f.totalChars else f.shown + 2;
        f.(shown := shown, scroll := Less(TypedLine(f.lines, shown, 0), WINDOW - 1))
    case Press(Ok) => if Box(f) then f.(dismissed := true) else f
    case Press(Down) => if Box(f) && !Typing(f) && f.scroll < MaxScroll(f.lines) then f.(scroll := f.scroll + 1) else f
    case Press(Up) => if Box(f) && !Typing(f) && f.scroll > 0 then f.(scroll := f.scroll - 1) else f
    case Press(Other) => f
  }

  /** New lines come from the wrapper. */
  ghost predicate Proper(step: Step) {
    step.SetText? ==> Fitting(step.newLines) && KeepsWords(step.text, step.newLines)
  }

  lemma StepKeeps(f: Face, step: Step)
    requires Inv(f) && Proper(step)
    ensures Inv(Next(f, step))
  {
  }

  ghost function RunTo(f: Face, run: seq<Step>): Face
    decreases |run|
  {
    if run == [] then f else RunTo(Next(f, run[0]), run[1..])
  }

  /** In every run the box shows no more characters than there are and never scrolls past its end. */
  lemma {:induction false} RunKeeps(f: Face, run: seq<Step>)
    requires Inv(f) && forall k :: 0 <= k < |run| ==> Proper(run[k])
    ensures Inv(RunTo(f, run))
    decreases |run|
  {
    if run != [] {
      StepKeeps(f, run[0]);
      RunKeeps(Next(f, run[0]), run[1..]);
    }
  }

  /** So it is from the start on. */
  lemma ReachableInRange(run: seq<Step>)
    requires forall k :: 0 <= k < |run| ==> Proper(run[k])
    ensures var f := RunTo(Face(false, [], 0, 0, 0, false), run);
            f.shown <= f.totalChars == CharsUpTo(f.lines, |f.lines|) && f.scroll <= MaxScroll(f.lines)
  {
    RunKeeps(Face(false, [], 0, 0, 0, false), run);
  }

  /** While typing, the line that holds the last revealed character is visible after every tick, and the
      last one in the window unless it is the first of all. */
  lemma TypedLineVisible(f: Face)
    requires Inv(f) && Typing(f)
    ensures f.lines != []
    ensures var f' := Next(f, Tick);
            var cur := TypedLine(f.lines, f'.shown, 0);
            && f.shown < f'.shown
            && CharsUpTo(f.lines, cur) < f'.shown <= CharsUpTo(f.lines, cur + 1)
            && f'.scroll == Less(cur, 1) && f'.scroll <= cur < f'.scroll + 2
  {
    var shown := Next(f, Tick).shown;
    var cur := TypedLine(f.lines, shown, 0);
    if cur + 1 == |f.lines| {
      assert shown <= CharsUpTo(f.lines, cur + 1);
    }
  }

  ghost function Ticks(n: nat): seq<Step> {
    seq(n, i => Tick)
  }

  /** Typing goes on two characters a tick until everything is shown. */
  lemma {:induction false} TypingEnds(f: Face, n: nat)
    requires Inv(f) && f.talking
    ensures var f' := RunTo(f, Ticks(n));
            && f' == f.(shown := f'.shown, scroll := f'.scroll)
            && f'.shown == if f.shown + 2 * n > f.totalChars then f.totalChars else f.shown + 2 * n
    decreases n
  {
    if n > 0 {
      assert Ticks(n)[1..] == Ticks(n - 1);
      StepKeeps(f, Tick);
      if f.lines == [] { assert CharsUpTo(f.lines, 0) == 0; }
      TypingEnds(Next(f, Tick), n - 1);
    }
  }

  ghost function Presses(key: Key, n: nat): seq<Step> {
    seq(n, i => Press(key))
  }

  /** With the box on screen and nothing being typed, the down key moves the window of two lines to the
      last line, one line a press, and the up key back to the first; neither changes anything else. */
  lemma {:induction false} PressesScroll(f: Face, key: Key, n: nat)
    requires Inv(f) && !Typing(f) && !f.dismissed && f.lines != [] && (key == Down || key == Up)
    ensures var f' := RunTo(f, Presses(key, n));
            && f' == f.(scroll := f'.scroll)
            && (key == Up ==> f'.scroll == Less(f.scroll, n))
            && (key == Down ==> f'.scroll == if f.scroll + n + 2 <= |f.lines| then f.scroll + n
                                             else if f.scroll + 2 <= |f.lines| then |f.lines| - 2 else f.scroll)
    decreases n
  {
    if n > 0 {
      assert Presses(key, n)[1..] == Presses(key, n - 1);
      StepKeeps(f, Press(key));
      PressesScroll(Next(f, Press(key)), key, n - 1);
    }
  }

  /** So every line can be read: some number of presses of one of the two keys brings it into view. */
  lemma EveryLineReachable(f: Face, i: nat)
    requires Inv(f) && !Typing(f) && !f.dismissed && i < |f.lines|
    ensures exists key, n :: (key == Down || key == Up)
              && RunTo(f, Presses(key, n)).scroll <= i < RunTo(f, Presses(key, n)).scroll + 2
  {
    var key, n := if i < f.scroll then Up else Down, if i < f.scroll then f.scroll - i else Less(i, f.scroll + 1);
    PressesScroll(f, key, n);
    assert RunTo(f, Presses(key, n)).scroll <= i < RunTo(f, Presses(key, n)).scroll + 2;
  }

  /** What a tick does while typing. */
  lemma TickMeans(f: Face)
    requires Inv(f)
    ensures Inv(Next(f, Tick))
    ensures Typing(f) ==>
              var shown := if f.shown + 2 > f.totalChars then f.totalChars else f.shown + 2;
              f.lines != [] && Next(f, Tick) == f.(shown := shown,
                                                   scroll := Less(TypedLine(f.lines, shown, 0), WINDOW - 1))
    ensures !Typing(f) ==> Next(f, Tick) == f
  {
    StepKeeps(f, Tick);
    if Typing(f) { TypedLineVisible(f); }
  }

  /** The loop of nikita_face_tick that follows the line being typed. */
  method FollowLine(lines: seq<string>, shown: nat) returns (cur: nat)
    ensures lines != [] ==> cur == TypedLine(lines, shown, 0)
    ensures lines == [] ==> cur == 0
  {
    var cum := 0;
    cur := 0;
    for i := 0 to |lines|
      invariant cum == CharsUpTo(lines, i)
      invariant i > 0 ==> cur == i - 1 && cum < shown
      invariant i < |lines| ==> TypedLine(lines, shown, 0) == TypedLine(lines, shown, i)
      invariant i == |lines| > 0 ==> cur == TypedLine(lines, shown, 0)
      invariant i == 0 ==> cur == 0
    {
      cum := cum + |lines[i]|;
      cur := i;
      if cum >= shown { return; }
    }
  }

  method CountChars(lines: seq<string>) returns (total: nat)
    ensures total == CharsUpTo(lines, |lines|)
  {
    total := 0;
    for i := 0 to |lines|
      invariant total == CharsUpTo(lines, i)
    {
      total := total + |lines[i]|;
    }
  }

  datatype Outcome = Ignored | Handled | Callback

  /** The view model. */
  class FaceModel {
    var talking: bool
    var lines: seq<string>
    var totalChars: nat
    var shown: nat
    var scroll: nat
    var dismissed: bool

    ghost function Value(): Face
      reads this
    {
      Face(talking, lines, totalChars, shown, scroll, dismissed)
    }

    ghost predicate Valid()
      reads this
    {
      Inv(Value())
    }

    constructor ()
      ensures Valid() && Value() == Face(false, [], 0, 0, 0, false)
    {
      talking, lines, totalChars, shown, scroll, dismissed := false, [], 0, 0, 0, false;
    }

    /** nikita_face_set_text */
    method ShowText(text: string)
      modifies this
      ensures Valid() && KeepsWords(text, lines)
      ensures Value() == Next(old(Value()), Step.SetText(text, lines))
      ensures shown == 0 && scroll == 0 && !dismissed && talking == old(talking)
      ensures lines == [] <==> Words(text) == [] && Newlines(text) <= 1
      ensures lines != [] ==> LaidOut(text, lines)
      ensures Words(text) == [] && Newlines(text) >= 2 ==> OnlyEmpty(lines, Newlines(text))
    {
      var wrapped := Wrap(text);
      PutLines(text, wrapped);
    }

    method PutLines(ghost text: string, newLines: seq<string>)
      requires Fitting(newLines)
      modifies this
      ensures Valid() && lines == newLines
      ensures Value() == Next(old(Value()), Step.SetText(text, newLines))
    {
      lines := newLines;
      totalChars := CountChars(newLines);
      shown := 0;
      scroll := 0;
      dismissed := false;
    }

    /** nikita_face_set_mood */
    method SetMood(toTalking: bool)
      requires Valid()
      modifies this
      ensures Valid() && Value() == Next(old(Value()), Step.SetMood(toTalking))
      ensures talking == toTalking && lines == old(lines)
      ensures toTalking ==> shown == 0 && scroll == 0 && !dismissed
      ensures !toTalking ==> shown == old(shown) && scroll == old(scroll) && dismissed == old(dismissed)
    {
      talking := toTalking;
      if toTalking {
        shown := 0;
        scroll := 0;
        dismissed := false;
      }
    }

    /** nikita_face_tick */
    method Tick() returns (more: bool)
      requires Valid()
      modifies this`shown, this`scroll
      ensures Valid() && Value() == Next(old(Value()), Step.Tick) && more == Typing(old(Value()))
    {
      TickMeans(Value());
      more := talking && shown < totalChars;
      if more {
        var next := shown + 2;
        if next > totalChars { next := totalChars; }
        var cur := FollowLine(lines, next);
        shown, scroll := next, Less(cur, WINDOW - 1);
      }
    }

    /** The input callback: OK dismisses the box or, without one, calls back. */
    method Press(key: Key) returns (outcome: Outcome)
      requires Valid()
      modifies this`scroll, this`dismissed
      ensures Valid() && Value() == Next(old(Value()), Step.Press(key))
      ensures outcome == Callback <==> key == Ok && (old(dismissed) || lines == [])
      ensures dismissed <==> old(dismissed) || (key == Ok && lines != [])
      ensures outcome == Handled <==> Value() != old(Value())
    {
      outcome := Ignored;
      var box, typing := !dismissed && lines != [], talking && shown < totalChars;
      match key {
        case Ok =>
          if box {
            dismissed := true;
            outcome := Handled;
          } else {
            outcome := Callback;
          }
        case Down =>
          if box && !typing && scroll < MaxScroll(lines) {
            scroll := scroll + 1;
            outcome := Handled;
          }
        case Up =>
          if box && !typing && scroll > 0 {
            scroll := scroll - 1;
            outcome := Handled;
          }
        case Other =>
      }
    }
  }
}
