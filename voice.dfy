/** The voice-assistant service (server/src/services/voice.ts): the answer cleaner used
    by the pipeline, the wake-word fast path that turns an utterance into a Telegram
    command, the marker stripping that recovers the command body, the reading and
    rendering of the conversation memory, and the order of the steps of one request. */
module Voice {
  import opened Text
  import Assistant

  // ===========================================================================
  // simpleClean

  /** The fixed apology returned when there is nothing usable to say. */
  const Fallback: string := "Извини, я не могу ответить на это."

  /** Case-insensitive `startsWith` against a lower-case word, as the `i` flag compares. */
  predicate StartsWithFolded(s: string, word: string) {
    |word| <= |s| && Lower(s[..|word|]) == word
  }

  predicate IsDigit(c: char) {
    '0' <= c <= '9'
  }

  /** Length of the run of digits at the front of `s` (what a greedy `\d+` consumes). */
  function DigitRun(s: string): (n: nat)
    ensures n <= |s|
    ensures forall k | 0 <= k < n :: IsDigit(s[k])
    ensures n == |s| || !IsDigit(s[n])
  {
    if s == [] || !IsDigit(s[0]) then 0 else 1 + DigitRun(s[1..])
  }

  /** Length of the label `(Assistant:|Output:|Answer:|Часть\s*\d+:)` at the front of `t`
      (case-insensitive), or 0 when `t` does not start with one. */
  function LabelHead(t: string): (n: nat)
    ensures n <= |t|
  {
    if StartsWithFolded(t, "assistant:") then |"assistant:"|
    else if StartsWithFolded(t, "output:") then |"output:"|
    else if StartsWithFolded(t, "answer:") then |"answer:"|
    else if StartsWithFolded(t, "часть") then
      var a := |"часть"| + SpaceRun(t[|"часть"|..]);
      var d := DigitRun(t[a..]);
      if d > 0 && a + d < |t| && t[a + d] == ':' then a + d + 1 else 0
    else 0
  }

  // `t.replace(/^(Assistant:|Output:|Answer:|Часть\s*\d+:)\s*/i, "")`: one leading label
  // and the white space after it are removed.
  function StripLabel(t: string): (r: string)
    ensures |r| <= |t| && r == t[|t| - |r|..]
  {
    var h := LabelHead(t);
    if h == 0 then t else t[h + SpaceRun(t[h..])..]
  }

  /** No two neighbouring white-space characters, and every white space is a plain ' '. */
  predicate SingleSpaced(s: string) {
    && (forall k | 0 <= k < |s| :: IsSpace(s[k]) ==> s[k] == ' ')
    && (forall k | 0 <= k < |s| - 1 :: !(IsSpace(s[k]) && IsSpace(s[k + 1])))
  }

  /** `s.replace(/\s+/g, " ")`: every white-space run becomes one ' '. The result is single
      spaced and starts and ends with white space exactly when `s` does. */
  function Collapse(s: string): (r: string)
    ensures |r| <= |s|
    ensures r == [] <==> s == []
    ensures SingleSpaced(r)
    ensures r != [] ==> (IsSpace(r[0]) <==> IsSpace(s[0]))
    ensures r != [] ==> (IsSpace(r[|r| - 1]) <==> IsSpace(s[|s| - 1]))
    decreases |s|
  {
    if s == [] then []
    else if IsSpace(s[0]) then
      var n := SpaceRun(s);
      var rest := Collapse(s[n..]);
      assert n < |s| ==> rest != [] && !IsSpace(rest[0]);
      assert n < |s| ==> s[n..][|s[n..]| - 1] == s[|s| - 1];
      " " + rest
    else
      var rest := Collapse(s[1..]);
      assert |s| > 1 ==> s[1..][|s| - 2] == s[|s| - 1];
      [s[0]] + rest
  }

  /** `/^[\.\s]+$/`: a non-empty string of dots and white space only. */
  predicate DotsAndSpaces(t: string) {
    t != [] && AllDotsOrSpaces(t)
  }

  predicate IsDotOrSpace(c: char) {
    c == '.' || IsSpace(c)
  }

  predicate AllDotsOrSpaces(t: string) {
    forall k | 0 <= k < |t| :: IsDotOrSpace(t[k])
  }

  /** The cleaning of `simpleClean`: trim, strip one leading label, collapse white
      space; none when what is left is empty, only dots and white space, or shorter
      than three characters, which is when the apology is due. */
  function Cleaned(text: string): Option<string> {
    if text == "" then None
    else
      var t := Collapse(StripLabel(Trim(text)));
      if t == "" || DotsAndSpaces(t) || |t| < 3 then None else Some(t)
  }

  /** `simpleClean`: the cleaned answer, or the fixed apology. Whatever it returns is at
      least three characters long. */
  function SimpleClean(text: string): (r: string)
    ensures |r| >= 3
  {
    Cleaned(text).GetOr(Fallback)
  }

  /** The characters of `s` that are not white space. */
  function NonSpace(s: string): string {
    if s == [] then []
    else if IsSpace(s[0]) then NonSpace(s[1..])
    else [s[0]] + NonSpace(s[1..])
  }

  lemma {:induction false} NonSpaceSkipsRun(s: string, n: nat)
    requires n <= |s| && forall k | 0 <= k < n :: IsSpace(s[k])
    ensures NonSpace(s) == NonSpace(s[n..])
  {
    if n > 0 {
      NonSpaceSkipsRun(s[1..], n - 1);
      assert s[1..][n - 1..] == s[n..];
    }
  }

  /** Collapsing white space keeps every other character, in order. */
  lemma {:induction false} CollapseKeepsText(s: string)
    ensures NonSpace(Collapse(s)) == NonSpace(s)
    decreases |s|
  {
    if s != [] {
      if IsSpace(s[0]) {
        var n := SpaceRun(s);
        CollapseKeepsText(s[n..]);
        NonSpaceSkipsRun(s, n);
        assert (" " + Collapse(s[n..]))[1..] == Collapse(s[n..]);
      } else {
        CollapseKeepsText(s[1..]);
        assert ([s[0]] + Collapse(s[1..]))[1..] == Collapse(s[1..]);
      }
    }
  }

  lemma SingleSpacedTail(s: string)
    requires s != [] && SingleSpaced(s)
    ensures SingleSpaced(s[1..])
    ensures IsSpace(s[0]) ==> s[0] == ' ' && SpaceRun(s) == 1
  {
    forall k | 0 <= k < |s| - 1 ensures s[1..][k] == s[k + 1] { }
    if IsSpace(s[0]) && |s| > 1 {
      assert !IsSpace(s[1]);
    }
  }

  /** A single-spaced string is left as it is by collapsing. */
  lemma {:induction false} CollapseOfSingleSpaced(s: string)
    requires SingleSpaced(s)
    ensures Collapse(s) == s
    decreases |s|
  {
    if s != [] {
      SingleSpacedTail(s);
      CollapseOfSingleSpaced(s[1..]);
      assert s == [s[0]] + s[1..];
    }
  }

  /** A white-space run of `a` that stops inside `a`, or is not continued by `b`, is the
      run of `a + b`. */
  lemma {:induction false} SpaceRunConcat(a: string, b: string)
    requires SpaceRun(a) < |a| || b == [] || !IsSpace(b[0])
    ensures SpaceRun(a + b) == SpaceRun(a)
    decreases |a|
  {
    if a == [] {
      assert a + b == b;
    } else if IsSpace(a[0]) {
      SpaceRunConcat(a[1..], b);
      assert (a + b)[1..] == a[1..] + b;
    } else {
      assert (a + b)[0] == a[0];
    }
  }

  /** A non-empty run of white space collapses to one ' '. */
  lemma CollapseRun(w: string)
    requires w != [] && forall k | 0 <= k < |w| :: IsSpace(w[k])
    ensures Collapse(w) == " "
  {
    assert SpaceRun(w) == |w|;
    assert w[|w|..] == [];
  }

  lemma CollapseKeepsHead(c: char, s: string)
    requires !IsSpace(c)
    ensures Collapse([c] + s) == [c] + Collapse(s)
  {
    assert ([c] + s)[1..] == s;
  }

  lemma CollapseLeadingRun(s: string)
    requires s != [] && IsSpace(s[0])
    ensures Collapse(s) == " " + Collapse(s[SpaceRun(s)..])
  {
  }

  lemma PrefixRegroup(c: string, x: string, y: string, z: string)
    requires x == y + z
    ensures c + x == (c + y) + z
  {
  }

  lemma CollapseSplitHead(c: char, t: string, b: string)
    requires !IsSpace(c)
    requires Collapse(t + b) == Collapse(t) + Collapse(b)
    ensures Collapse([c] + t + b) == Collapse([c] + t) + Collapse(b)
  {
    var x := t + b;
    assert [c] + t + b == [c] + x;
    CollapseKeepsHead(c, x);
    CollapseKeepsHead(c, t);
    PrefixRegroup([c], Collapse(x), Collapse(t), Collapse(b));
  }

  lemma DropFromConcat(a: string, b: string, m: nat)
    requires m <= |a|
    ensures (a + b)[m..] == a[m..] + b
  {
  }

  lemma CollapseSplitRun(a: string, b: string)
    requires a != [] && IsSpace(a[0])
    requires SpaceRun(a) < |a| || b == [] || !IsSpace(b[0])
    requires Collapse(a[SpaceRun(a)..] + b) == Collapse(a[SpaceRun(a)..]) + Collapse(b)
    ensures Collapse(a + b) == Collapse(a) + Collapse(b)
  {
    var m := SpaceRun(a);
    var t := a[m..];
    DropFromConcat(a, b, m);
    SpaceRunConcat(a, b);
    CollapseLeadingRun(a + b);
    CollapseLeadingRun(a);
    PrefixRegroup(" ", Collapse(t + b), Collapse(t), Collapse(b));
  }

  /** Collapsing works piece by piece when the cut does not fall inside a white-space
      run. With `CollapseRun` and `CollapseKeepsText` this says that every run is
      replaced by one ' ' in its place and everything else is kept. */
  lemma {:induction false} CollapseSplit(a: string, b: string)
    requires a == [] || b == [] || !IsSpace(a[|a| - 1]) || !IsSpace(b[0])
    ensures Collapse(a + b) == Collapse(a) + Collapse(b)
    decreases |a|
  {
    if a == [] {
      assert a + b == b;
    } else if b == [] {
      assert a + b == a;
    } else if !IsSpace(a[0]) {
      assert a == [a[0]] + a[1..];
      CollapseSplit(a[1..], b);
      CollapseSplitHead(a[0], a[1..], b);
    } else {
      var m := SpaceRun(a);
      if m < |a| {
        assert a[m..][|a| - m - 1] == a[|a| - 1];
      }
      CollapseSplit(a[m..], b);
      CollapseSplitRun(a, b);
    }
  }

  lemma CollapseGapTail()
    ensures Collapse("  b") == " b"
  {
    assert "  " + "b" == "  b";
    CollapseSplit("  ", "b");
    CollapseRun("  ");
  }

  /** "a  b" becomes "a b". */
  lemma CollapseGap()
    ensures Collapse("a  b") == "a b"
  {
    assert ['a'] + "  b" == "a  b";
    CollapseKeepsHead('a', "  b");
    CollapseGapTail();
  }

  /** Stripping a label from trimmed text leaves trimmed text. */
  lemma StripLabelTrimmed(t: string)
    requires IsTrimmed(t)
    ensures IsTrimmed(StripLabel(t))
  {
    var r := StripLabel(t);
    if r != [] && LabelHead(t) != 0 {
      var h := LabelHead(t);
      var n := SpaceRun(t[h..]);
      assert r == t[h..][n..];
      assert r[0] == t[h..][n];
      assert r[|r| - 1] == t[|t| - 1];
    }
  }

  /** What an answer that survives cleaning looks like: single spaced, trimmed, at
      least three long, not only dots and white space, and holding exactly the
      non-space characters of the trimmed, label-stripped input. */
  lemma SimpleCleanShape(text: string)
    ensures Cleaned(text).None? ==> SimpleClean(text) == Fallback
    ensures Cleaned(text).Some? ==>
      var r := Cleaned(text).value;
      && SimpleClean(text) == r
      && SingleSpaced(r) && IsTrimmed(r) && |r| >= 3 && !DotsAndSpaces(r)
      && NonSpace(r) == NonSpace(StripLabel(Trim(text)))
  {
    if text != "" {
      var s := StripLabel(Trim(text));
      StripLabelTrimmed(Trim(text));
      CollapseKeepsText(s);
    }
  }

  /** Text that is already clean (trimmed, single spaced, no leading label, at least three
      long, not only dots) comes back unchanged. */
  lemma SimpleCleanKeepsCleanText(text: string)
    requires IsTrimmed(text) && SingleSpaced(text) && LabelHead(text) == 0
    requires |text| >= 3 && !DotsAndSpaces(text)
    ensures Cleaned(text) == Some(text) && SimpleClean(text) == text
  {
    TrimOfTrimmed(text);
    CollapseOfSingleSpaced(text);
  }

  /** Only ONE label goes: after "Assistant:", "Output:" or "Answer:" (in any letter
      case) and the white space that follows, the rest is kept even when it starts with
      another label. */
  lemma StripLabelOnce(tag: string, gap: string, rest: string)
    requires Lower(tag) in ["assistant:", "output:", "answer:"]
    requires forall k | 0 <= k < |gap| :: IsSpace(gap[k])
    requires rest == [] || !IsSpace(rest[0])
    ensures StripLabel(tag + gap + rest) == rest
  {
    var t := tag + gap + rest;
    var w := Lower(tag);
    assert t[..|tag|] == tag;
    assert StartsWithFolded(t, w);
    FoldedAt(t, w, 0);
    FoldedAt(t, w, 1);
    FoldedAt(t, "assistant:", 0);
    FoldedAt(t, "assistant:", 1);
    FoldedAt(t, "output:", 0);
    assert LabelHead(t) == |w|;
    assert t[|tag|..] == gap + rest;
    assert SpaceRun(gap + rest) == |gap| by { SpaceRunPrefix(gap, rest); }
    assert (gap + rest)[|gap|..] == rest;
  }

  /** The fourth label, "Часть N:" in any letter case with white space allowed before the
      number, goes too, together with the white space after its colon. */
  lemma StripLabelPart(tag: string, sp1: string, digits: string, sp2: string, rest: string)
    requires Lower(tag) == "часть"
    requires forall k | 0 <= k < |sp1| :: IsSpace(sp1[k])
    requires digits != [] && forall k | 0 <= k < |digits| :: IsDigit(digits[k])
    requires forall k | 0 <= k < |sp2| :: IsSpace(sp2[k])
    requires rest == [] || !IsSpace(rest[0])
    ensures StripLabel(tag + sp1 + digits + ":" + sp2 + rest) == rest
  {
    PartNested(tag, sp1, digits, sp2, rest);
    PartLayout(tag, sp1, digits, sp2, rest);
  }

  lemma PartLayout(tag: string, sp1: string, digits: string, sp2: string, rest: string)
    ensures tag + sp1 + digits + ":" + sp2 + rest == tag + (sp1 + (digits + ([':'] + (sp2 + rest))))
  {
  }

  lemma PartNested(tag: string, sp1: string, digits: string, sp2: string, rest: string)
    requires Lower(tag) == "часть"
    requires forall k | 0 <= k < |sp1| :: IsSpace(sp1[k])
    requires digits != [] && forall k | 0 <= k < |digits| :: IsDigit(digits[k])
    requires forall k | 0 <= k < |sp2| :: IsSpace(sp2[k])
    requires rest == [] || !IsSpace(rest[0])
    ensures StripLabel(tag + (sp1 + (digits + ([':'] + (sp2 + rest))))) == rest
  {
    var t := tag + (sp1 + (digits + ([':'] + (sp2 + rest))));
    PartHeadOf(tag, sp1, digits, sp2 + rest);
    PartPieces(tag, sp1, digits, sp2, rest);
    SpaceRunPrefix(sp2, rest);
    StripAt(t, 5 + |sp1| + |digits| + 1, |sp2|);
  }

  /** The head of a "часть" label runs through its colon. */
  lemma PartHeadOf(tag: string, sp1: string, digits: string, after: string)
    requires Lower(tag) == "часть"
    requires forall k | 0 <= k < |sp1| :: IsSpace(sp1[k])
    requires digits != [] && forall k | 0 <= k < |digits| :: IsDigit(digits[k])
    ensures LabelHead(tag + (sp1 + (digits + ([':'] + after)))) == 5 + |sp1| + |digits| + 1
  {
    var tail := [':'] + after;
    var t := tag + (sp1 + (digits + tail));
    PartPieces(tag, sp1, digits, [], after);
    assert [] + after == after;
    SpaceRunPrefix(sp1, digits + tail);
    DigitRunPrefix(digits, tail);
    PartHead(t, |sp1|, |digits|);
  }

  /** The slices of a "часть" label laid out piece by piece. */
  lemma PartPieces(tag: string, sp1: string, digits: string, sp2: string, rest: string)
    requires |tag| == 5
    ensures var t := tag + (sp1 + (digits + ([':'] + (sp2 + rest))));
      && t[..5] == tag && t[5..] == sp1 + (digits + ([':'] + (sp2 + rest)))
      && t[5 + |sp1|..] == digits + ([':'] + (sp2 + rest))
      && t[5 + |sp1| + |digits|] == ':'
      && t[5 + |sp1| + |digits| + 1..] == sp2 + rest
      && t[5 + |sp1| + |digits| + 1 + |sp2|..] == rest
  {
  }

  lemma StripAt(t: string, h: nat, n: nat)
    requires 0 < h <= |t| && LabelHead(t) == h && SpaceRun(t[h..]) == n
    ensures StripLabel(t) == t[h + n..]
  {
  }

  /** How LabelHead measures a "часть" label from the lengths of its runs. */
  lemma PartHead(t: string, spaces: nat, digits: nat)
    requires StartsWithFolded(t, "часть")
    requires 5 + spaces <= |t| && SpaceRun(t[5..]) == spaces
    requires 0 < digits && DigitRun(t[5 + spaces..]) == digits
    requires 5 + spaces + digits < |t| && t[5 + spaces + digits] == ':'
    ensures LabelHead(t) == 5 + spaces + digits + 1
  {
    FoldedAt(t, "часть", 0);
    FoldedAt(t, "assistant:", 0);
    FoldedAt(t, "output:", 0);
    FoldedAt(t, "answer:", 0);
  }

  lemma {:induction false} DigitRunPrefix(digits: string, rest: string)
    requires forall k | 0 <= k < |digits| :: IsDigit(digits[k])
    requires rest == [] || !IsDigit(rest[0])
    ensures DigitRun(digits + rest) == |digits|
  {
    if digits != [] {
      assert (digits + rest)[1..] == digits[1..] + rest;
      DigitRunPrefix(digits[1..], rest);
    } else {
      assert digits + rest == rest;
    }
  }

  /** A text that does not start, in any letter case, with one of the four labels comes
      back unchanged. */
  lemma StripLabelKeepsUnlabelled(t: string)
    requires !StartsWithFolded(t, "assistant:") && !StartsWithFolded(t, "output:")
    requires !StartsWithFolded(t, "answer:") && !StartsWithFolded(t, "часть")
    ensures StripLabel(t) == t
  {
  }

  /** A text that starts with "часть" but has no number and colon after it is not a
      label and comes back unchanged. */
  lemma StripLabelNeedsNumber(tag: string, sp: string, rest: string)
    requires Lower(tag) == "часть"
    requires forall k | 0 <= k < |sp| :: IsSpace(sp[k])
    requires rest == [] || (!IsSpace(rest[0]) && !IsDigit(rest[0]))
    ensures StripLabel(tag + sp + rest) == tag + sp + rest
  {
    var t := tag + sp + rest;
    assert t[..|tag|] == tag;
    FoldedAt(t, "часть", 0);
    FoldedAt(t, "assistant:", 0);
    FoldedAt(t, "output:", 0);
    FoldedAt(t, "answer:", 0);
    assert t[5..] == sp + rest;
    SpaceRunPrefix(sp, rest);
    assert t[5 + |sp|..] == rest;
  }

  /** Where a case-insensitive match holds, each character lowers to the word's. */
  lemma FoldedAt(t: string, w: string, k: nat)
    ensures StartsWithFolded(t, w) && k < |w| ==> LowerChar(t[k]) == w[k]
  {
    if StartsWithFolded(t, w) && k < |w| {
      assert Lower(t[..|w|])[k] == LowerChar(t[k]);
    }
  }

  lemma {:induction false} SpaceRunPrefix(gap: string, rest: string)
    requires forall k | 0 <= k < |gap| :: IsSpace(gap[k])
    requires rest == [] || !IsSpace(rest[0])
    ensures SpaceRun(gap + rest) == |gap|
  {
    if gap != [] {
      assert (gap + rest)[1..] == gap[1..] + rest;
      SpaceRunPrefix(gap[1..], rest);
    } else {
      assert gap + rest == rest;
    }
  }

  /** Any inner slice of dots and white space is dots and white space. */
  lemma DotsInSlice(t: string, i: nat, j: nat)
    requires i <= j <= |t| && AllDotsOrSpaces(t)
    ensures AllDotsOrSpaces(t[i..j])
  {
    forall k | 0 <= k < j - i ensures IsDotOrSpace(t[i..j][k]) {
      assert t[i..j][k] == t[i + k];
    }
  }

  /** Collapsing turns dots and white space into dots and white space. */
  lemma {:induction false} CollapseKeepsDots(s: string)
    requires AllDotsOrSpaces(s)
    ensures AllDotsOrSpaces(Collapse(s))
    decreases |s|
  {
    if s != [] {
      var n := if IsSpace(s[0]) then SpaceRun(s) else 1;
      DotsInSlice(s, n, |s|);
      CollapseKeepsDots(s[n..]);
      var r := Collapse(s[n..]);
      var head := if IsSpace(s[0]) then " " else [s[0]];
      assert Collapse(s) == head + r;
      assert IsDotOrSpace(head[0]);
      forall k | 0 <= k < |head + r| ensures IsDotOrSpace((head + r)[k]) {
        if k > 0 { assert (head + r)[k] == r[k - 1]; }
      }
    }
  }

  lemma ShortCleanedNone(text: string)
    requires |text| < 3
    ensures Cleaned(text).None?
  {
    if text != "" {
      var c := Collapse(StripLabel(Trim(text)));
      assert |c| <= |StripLabel(Trim(text))| <= |Trim(text)| <= |text|;
    }
  }

  lemma DottedCleanedNone(text: string)
    requires AllDotsOrSpaces(text)
    ensures Cleaned(text).None?
  {
    if text != "" {
      var t := Trim(text);
      DotsInSlice(text, SpaceRun(text), SpaceRun(text) + |t|);
      var s := StripLabel(t);
      DotsInSlice(t, |t| - |s|, |t|);
      CollapseKeepsDots(s);
    }
  }

  /** Answers shorter than three characters, and answers made only of dots and white
      space, get the apology. */
  lemma ShortOrDottedGetsFallback(text: string)
    requires |text| < 3 || AllDotsOrSpaces(text)
    ensures Cleaned(text).None? && SimpleClean(text) == Fallback
  {
    if |text| < 3 {
      ShortCleanedNone(text);
    } else {
      DottedCleanedNone(text);
    }
  }

  // ===========================================================================
  // detectLocalCommand

  /** One element of a wake-word pattern. */
  datatype Piece =
    | Lit(word: string)           // the characters themselves
    | Spaces(atLeastOne: bool)    // `\s*`, or `\s+` when atLeastOne
    | CommaSpaces                 // `[, ]*`
    | AnyOf(words: seq<string>)   // `(w1|w2|...)`

  /** A pattern anchored at the start of the text. */
  type Pattern = seq<Piece>

  /** Length of the run of ',' and ' ' at the front of `s`. */
  function CommaSpaceRun(s: string): (n: nat)
    ensures n <= |s|
    ensures forall k | 0 <= k < n :: s[k] == ',' || s[k] == ' '
    ensures n == |s| || (s[n] != ',' && s[n] != ' ')
  {
    if s == [] || (s[0] != ',' && s[0] != ' ') then 0 else 1 + CommaSpaceRun(s[1..])
  }

  /** Length of the first of `words` that `s` starts with. */
  function FirstPrefix(words: seq<string>, s: string): (r: Option<nat>)
    ensures r.Some? ==> r.value <= |s| && s[..r.value] in words
    ensures r.None? <==> forall w | w in words :: !StartsWith(s, w)
  {
    if words == [] then None
    else if StartsWith(s, words[0]) then Some(|words[0]|)
    else FirstPrefix(words[1..], s)
  }

  /** The text a single piece matches, read as a regular expression. */
  predicate PieceMatches(p: Piece, u: string) {
    match p
    case Lit(w) => u == w
    case Spaces(atLeastOne) => (forall k | 0 <= k < |u| :: IsSpace(u[k])) && (atLeastOne ==> u != [])
    case CommaSpaces => forall k | 0 <= k < |u| :: u[k] == ',' || u[k] == ' '
    case AnyOf(words) => u in words
  }

  /** How much of `rest` one piece consumes: the literal, the whole run, or the first
      alternative that fits. What it consumes is matched by the piece. */
  function PieceRun(p: Piece, rest: string): (r: Option<nat>)
    ensures r.Some? ==> r.value <= |rest| && PieceMatches(p, rest[..r.value])
  {
    match p
    case Lit(w) => if StartsWith(rest, w) then Some(|w|) else None
    case Spaces(atLeastOne) =>
      var n := SpaceRun(rest);
      if atLeastOne && n == 0 then None else Some(n)
    case CommaSpaces => Some(CommaSpaceRun(rest))
    case AnyOf(words) => FirstPrefix(words, rest)
  }

  /** End of the match of `ps` against `s` from position `pos`, if it matches. Runs are
      taken greedily and never given back: in every pattern of the table the character
      after a run lies outside the run's class, so backtracking could not help. */
  function MatchFrom(ps: Pattern, s: string, pos: nat): (r: Option<nat>)
    requires pos <= |s|
    ensures r.Some? ==> pos <= r.value <= |s|
    decreases |ps|
  {
    if ps == [] then Some(pos)
    else
      match PieceRun(ps[0], s[pos..])
      case None => None
      case Some(n) => MatchFrom(ps[1..], s, pos + n)
  }

  /** `w` is, as a whole, in the language of the pattern: it splits into consecutive
      parts, one matched by each piece in turn. */
  predicate Matches(ps: Pattern, w: string)
    decreases |ps|
  {
    if ps == [] then w == []
    else exists k | 0 <= k <= |w| :: PieceMatches(ps[0], w[..k]) && Matches(ps[1..], w[k..])
  }

  /** The greedy matcher is sound: the text it consumes is matched by the pattern. */
  lemma {:induction false} MatchFromSound(ps: Pattern, s: string, pos: nat)
    requires pos <= |s|
    ensures MatchFrom(ps, s, pos).Some? ==> Matches(ps, s[pos..MatchFrom(ps, s, pos).value])
    decreases |ps|
  {
    if ps != [] && MatchFrom(ps, s, pos).Some? {
      var e := MatchFrom(ps, s, pos).value;
      var n := PieceRun(ps[0], s[pos..]).value;
      MatchFromSound(ps[1..], s, pos + n);
      var w := s[pos..e];
      assert w[..n] == s[pos..][..n] && w[n..] == s[pos + n..e];
    }
  }

  const Verbs: Piece := AnyOf(["сделай", "отправь", "напиши"])

  /** `^<name>[, ]*\s*(сделай|отправь|напиши)`. */
  function Addressed(name: seq<Piece>): Pattern {
    name + [CommaSpaces, Spaces(false), Verbs]
  }

  /** `^<verb>\s+сообщение\s+в\s+телеграм[, ]*`. */
  function ToTelegram(verb: seq<Piece>): Pattern {
    verb + [Spaces(true), Lit("сообщение"), Spaces(true), Lit("в"), Spaces(true),
            Lit("телеграм"), CommaSpaces]
  }

  /** The wake-word table, in the order it is tried (duplicates included). */
  const LocalPatterns: seq<Pattern> := [
    Addressed([Lit("еле")]),
    Addressed([Lit("ере")]),
    Addressed([Lit("не ери")]),
    Addressed([Lit("не ере")]),
    Addressed([Lit("гере")]),
    Addressed([Lit("пере")]),
    Addressed([Lit("ге рин")]),
    Addressed([Lit("герин")]),
    Addressed([Lit("и рехон")]),
    Addressed([Lit("и рехон")]),
    Addressed([Lit("иерихон")]),
    Addressed([Lit("ирихон")]),
    Addressed([Lit("и"), Spaces(false), Lit("рихон")]),
    Addressed([Lit("иери")]),
    Addressed([Lit("ери")]),
    Addressed([Lit("ери"), Spaces(false), Lit("хон")]),
    Addressed([Lit("ере")]),
    Addressed([Lit("ере"), Spaces(false), Lit("хон")]),
    Addressed([Lit("ере"), Spaces(false), Lit("хан")]),
    Addressed([Lit("ири")]),
    Addressed([Lit("ири"), Spaces(false), Lit("хон")]),
    Addressed([Lit("ири"), Spaces(false), Lit("хан")]),
    ToTelegram([Lit("напиши")]),
    ToTelegram([Lit("отправ"), AnyOf(["ь", "и"])])
  ]

  /** The body one pattern yields: the text after the matched prefix, trimmed, provided
      it is not empty. It is trimmed, and lower case when the text is. */
  function CommandBody(p: Pattern, text: string): (r: Option<string>)
    ensures r.Some? ==> r.value != "" && IsTrimmed(r.value)
    ensures r.Some? && IsLower(text) ==> IsLower(r.value)
  {
    match MatchFrom(p, text, 0)
    case None => None
    case Some(e) =>
      var b := Trim(text[e..]);
      if b == "" then None
      else
        LowerTail(text, e);
        Some(b)
  }

  lemma LowerTail(text: string, e: nat)
    requires e <= |text|
    ensures IsLower(text) ==> IsLower(Trim(text[e..]))
  {
    if IsLower(text) {
      assert forall k | 0 <= k < |text[e..]| :: text[e..][k] == text[e + k];
      TrimKeeps(text[e..], c => LowerChar(c) == c);
    }
  }

  /** The body of the first pattern in `ps` that yields one. */
  function FirstCommand(ps: seq<Pattern>, text: string): Option<string> {
    if ps == [] then None
    else
      match CommandBody(ps[0], text)
      case Some(b) => Some(b)
      case None => FirstCommand(ps[1..], text)
  }

  /** What the detector looks at: the utterance trimmed and lower-cased. */
  function Normalize(userText: string): string {
    Lower(Trim(userText))
  }

  const CommandOpen: string := "[COMMAND]TG_MESSAGE:"
  const CommandClose: string := "[/COMMAND]"

  function Wrap(body: string): string {
    CommandOpen + body + CommandClose
  }

  /** `detectLocalCommand` as a value: the wrapped body of the first pattern that leaves
      a non-empty remainder, or none. */
  function LocalCommand(userText: string): Option<string> {
    match FirstCommand(LocalPatterns, Normalize(userText))
    case None => None
    case Some(b) => Some(Wrap(b))
  }

  /** `FirstCommand` finds nothing exactly when no pattern yields a body. */
  lemma {:induction false} FirstCommandNone(ps: seq<Pattern>, text: string)
    ensures FirstCommand(ps, text).None? <==> forall i | 0 <= i < |ps| :: CommandBody(ps[i], text).None?
  {
    if ps != [] {
      FirstCommandNone(ps[1..], text);
      assert forall i | 1 <= i < |ps| :: ps[i] == ps[1..][i - 1];
    }
  }

  /** Position of the first pattern in `ps` that yields a body, `|ps|` when none does. */
  function FirstMatchIndex(ps: seq<Pattern>, text: string): (i: nat)
    ensures i <= |ps|
  {
    if ps == [] then 0
    else if CommandBody(ps[0], text).Some? then 0
    else 1 + FirstMatchIndex(ps[1..], text)
  }

  /** `FirstCommand` is a first-match search: every pattern before the first matching
      one yields none, and what it finds is the body of that pattern. A match with an
      empty remainder does not stop the scan. */
  lemma {:induction false} FirstCommandIsFirstMatch(ps: seq<Pattern>, text: string)
    ensures var i := FirstMatchIndex(ps, text);
      && (forall j | 0 <= j < i :: CommandBody(ps[j], text).None?)
      && (i < |ps| ==> FirstCommand(ps, text) == CommandBody(ps[i], text))
      && (i == |ps| ==> FirstCommand(ps, text).None?)
  {
    if ps != [] && CommandBody(ps[0], text).None? {
      var t := ps[1..];
      FirstCommandIsFirstMatch(t, text);
      var i := FirstMatchIndex(t, text);
      forall j | 0 <= j < i + 1 ensures CommandBody(ps[j], text).None? {
        if j > 0 { assert ps[j] == t[j - 1]; }
      }
      if i < |t| { assert ps[i + 1] == t[i]; }
    }
  }

  /** The loop of `detectLocalCommand`: each pattern in turn, stopping at the first
      that leaves a non-empty body. */
  method ScanPatterns(patterns: seq<Pattern>, text: string) returns (body: Option<string>)
    ensures body == FirstCommand(patterns, text)
  {
    var i := 0;
    while i < |patterns|
      invariant 0 <= i <= |patterns|
      invariant FirstCommand(patterns[i..], text) == FirstCommand(patterns, text)
    {
      assert patterns[i..][1..] == patterns[i + 1..];
      var b := CommandBody(patterns[i], text);
      if b.Some? {
        return b;
      }
      i := i + 1;
    }
    return None;
  }

  /** `detectLocalCommand`: the utterance is trimmed and lower-cased, the table is
      scanned, and a body found is wrapped in the command markers. */
  method DetectLocalCommand(userText: string) returns (command: Option<string>)
    ensures command == LocalCommand(userText)
  {
    var text := Normalize(userText);
    var body := ScanPatterns(LocalPatterns, text);
    if body.Some? {
      command := Some(Wrap(body.value));
    } else {
      command := None;
    }
  }

  /** The marker stripping of `askVoice`: drop the first "[COMMAND]TG_MESSAGE:", then the
      first "[/COMMAND]", then trim. */
  function StripMarkers(command: string): string {
    Trim(ReplaceFirst(ReplaceFirst(command, CommandOpen, ""), CommandClose, ""))
  }

  /** The closing marker holds a capital 'C', so in a lower-case body followed by the
      marker its first occurrence is the appended one. */
  lemma CloseMarkerFirstAt(body: string)
    requires IsLower(body)
    ensures OccursAt(body + CommandClose, CommandClose, |body|)
    ensures forall j: nat | j < |body| :: !OccursAt(body + CommandClose, CommandClose, j)
  {
    var v := body + CommandClose;
    assert v[|body|..|body| + |CommandClose|] == CommandClose;
    forall j: nat | j < |body| ensures !OccursAt(v, CommandClose, j) {
      if j + 2 < |body| {
        assert v[j + 2] == body[j + 2];
        assert LowerChar(body[j + 2]) == body[j + 2];
      } else {
        assert v[j + 2] == CommandClose[j + 2 - |body|];
      }
      if j + |CommandClose| <= |v| {
        assert v[j..j + |CommandClose|][2] == v[j + 2];
      }
    }
  }

  /** Stripping the markers recovers a trimmed lower-case body exactly. */
  lemma MarkersRoundTrip(body: string)
    requires IsLower(body) && IsTrimmed(body)
    ensures StripMarkers(Wrap(body)) == body
  {
    var w := Wrap(body);
    SliceParts(CommandOpen, body, CommandClose);
    ReplaceFirstAt(w, CommandOpen, "", 0);
    var v := body + CommandClose;
    assert ReplaceFirst(w, CommandOpen, "") == v;
    CloseMarkerFirstAt(body);
    ReplaceFirstAt(v, CommandClose, "", |body|);
    assert v[..|body|] == body && v[|body| + |CommandClose|..] == [];
    TrimOfTrimmed(body);
  }

  /** Whenever the fast path fires, stripping the markers from its command gives back the
      detected body, which is non-empty. */
  lemma LocalCommandRoundTrip(userText: string)
    ensures LocalCommand(userText).Some? ==>
      && FirstCommand(LocalPatterns, Normalize(userText)).Some?
      && StripMarkers(LocalCommand(userText).value) == FirstCommand(LocalPatterns, Normalize(userText)).value
      && StripMarkers(LocalCommand(userText).value) != ""
  {
    var text := Normalize(userText);
    FirstCommandIsFirstMatch(LocalPatterns, text);
    if FirstCommand(LocalPatterns, text).Some? {
      var b := FirstCommand(LocalPatterns, text).value;
      assert IsLower(text);
      MarkersRoundTrip(b);
    }
  }

  // ---------------------------------------------------------------------------
  // A worked example: "ере, отправь привет" addresses the assistant by the second
  // wake word of the table and asks it to send "привет".

  const Example: string := "ере, отправь привет"

  lemma ExampleNormal()
    ensures Normalize(Example) == Example
  {
    ExampleTrimmed();
    ExampleLower();
    TrimOfTrimmed(Example);
    LowerOfLower(Example);
  }

  lemma ExampleTrimmed()
    ensures IsTrimmed(Example)
  {
    assert Example[0] == 'е' && Example[|Example| - 1] == 'т';
  }

  lemma ExampleLower()
    ensures IsLower(Example)
  {
  }

  /** The first wake word, "еле", does not match. */
  lemma ExampleFirstMisses()
    ensures CommandBody(LocalPatterns[0], Example).None?
  {
    assert Example[..3][1] == 'р';
    assert !StartsWith(Example[0..], "еле");
  }

  /** After "ере", the ", " gap is skipped and the verb "отправь" is recognised. */
  lemma ExampleSecondMatches()
    ensures MatchFrom(LocalPatterns[1], Example, 0) == Some(12)
  {
    SecondPattern();
    ExampleAddressed();
  }

  lemma SecondPattern()
    ensures LocalPatterns[1] == [Lit("ере"), CommaSpaces, Spaces(false), Verbs]
  {
  }

  lemma ExampleAddressed()
    ensures MatchFrom([Lit("ере"), CommaSpaces, Spaces(false), Verbs], Example, 0) == Some(12)
  {
    var p := [Lit("ере"), CommaSpaces, Spaces(false), Verbs];
    ExampleWake();
    MatchFromStep(p, Example, 0, 3);
    assert p[1..] == [CommaSpaces, Spaces(false), Verbs];
    ExampleAfterWake();
  }

  lemma ExampleAfterWake()
    ensures MatchFrom([CommaSpaces, Spaces(false), Verbs], Example, 3) == Some(12)
  {
    var p := [CommaSpaces, Spaces(false), Verbs];
    ExampleGap();
    ExampleNoSpace();
    MatchFromStep(p, Example, 3, 2);
    assert p[1..] == [Spaces(false), Verbs];
    MatchFromStep(p[1..], Example, 5, 0);
    assert p[1..][1..] == [Verbs];
    ExampleVerbLast();
  }

  lemma ExampleVerbLast()
    ensures MatchFrom([Verbs], Example, 5) == Some(12)
  {
    ExampleVerb();
    MatchFromStep([Verbs], Example, 5, 7);
    assert [Verbs][1..] == [];
  }

  /** One step of the matcher: the first piece consumes `n` characters. */
  lemma MatchFromStep(ps: Pattern, s: string, pos: nat, n: nat)
    requires ps != [] && pos <= |s| && PieceRun(ps[0], s[pos..]) == Some(n)
    ensures pos + n <= |s| && MatchFrom(ps, s, pos) == MatchFrom(ps[1..], s, pos + n)
  {
  }

  lemma ExampleWake()
    ensures PieceRun(Lit("ере"), Example[0..]) == Some(3)
  {
    assert Example[0..][..3] == "ере";
  }

  lemma ExampleGap()
    ensures PieceRun(CommaSpaces, Example[3..]) == Some(2)
  {
    var u := Example[3..];
    assert u[0] == ',';
    var v := u[1..];
    assert v[0] == ' ';
    var w := v[1..];
    assert w[0] == 'о';
    assert CommaSpaceRun(w) == 0;
  }

  lemma ExampleNoSpace()
    ensures PieceRun(Spaces(false), Example[5..]) == Some(0)
  {
    assert Example[5..][0] == 'о';
  }

  lemma ExampleVerb()
    ensures PieceRun(Verbs, Example[5..]) == Some(7)
  {
    var u := Example[5..];
    var words := ["сделай", "отправь", "напиши"];
    assert Verbs == AnyOf(words);
    assert u[..6][0] == 'о';
    assert !StartsWith(u, words[0]);
    assert u[..7] == "отправь";
    assert FirstPrefix(words[1..], u) == Some(7);
  }

  lemma ExampleBody()
    ensures CommandBody(LocalPatterns[1], Example) == Some("привет")
  {
    ExampleSecondMatches();
    var tail := Example[12..];
    assert tail == [' '] + "привет";
    SpaceRunPrefix([' '], "привет");
    assert Trim(tail) == "привет";
  }

  /** `detectLocalCommand("ере, отправь привет")` answers with the wrapped "привет". */
  lemma ExampleCommand()
    ensures LocalCommand(Example) == Some(Wrap("привет"))
  {
    ExampleNormal();
    ExampleFirstMisses();
    ExampleBody();
    assert LocalPatterns[1..][0] == LocalPatterns[1];
  }

  // ===========================================================================
  // Conversation memory and history

  /** A turn as the pipeline sees it. */
  datatype Turn = Turn(role: string, text: string)

  /** A memory record as the store returns it. */
  datatype MemoryRecord = MemoryRecord(role: string, text: string, createdAt: int)

  function Reverse<T>(s: seq<T>): (r: seq<T>)
    ensures |r| == |s|
  {
    if s == [] then [] else Reverse(s[1..]) + [s[0]]
  }

  lemma {:induction false} ReverseAt<T>(s: seq<T>, k: nat)
    requires k < |s|
    ensures |Reverse(s)| == |s| && Reverse(s)[k] == s[|s| - 1 - k]
  {
    if |s| > 1 {
      ReverseAt(s[1..], if k < |s| - 1 then k else 0);
    }
    ReverseLength(s);
  }

  lemma {:induction false} ReverseLength<T>(s: seq<T>)
    ensures |Reverse(s)| == |s|
  {
    if s != [] { ReverseLength(s[1..]); }
  }

  function ToTurn(r: MemoryRecord): Turn {
    Turn(r.role, r.text)
  }

  /** `getMemory`: the store's newest-first answer (none when the query returned nothing
      or failed), reversed into chronological order, keeping role and text. */
  function GetMemory(docs: Option<seq<MemoryRecord>>): (turns: seq<Turn>)
    ensures docs.None? ==> turns == []
  {
    var records := docs.GetOr([]);
    var rev := Reverse(records);
    seq(|rev|, i requires 0 <= i < |rev| => ToTurn(rev[i]))
  }

  /** The i-th turn of `getMemory` is the i-th record from the end of the store's list. */
  lemma GetMemoryAt(records: seq<MemoryRecord>, i: nat)
    requires i < |records|
    ensures |GetMemory(Some(records))| == |records|
    ensures GetMemory(Some(records))[i] == ToTurn(records[|records| - 1 - i])
  {
    ReverseAt(records, i);
  }

  /** What a store that keeps the log in creation order answers to "newest first, at most
      `limit`": the last `limit` records, newest first. */
  function NewestFirst(log: seq<MemoryRecord>, limit: nat): seq<MemoryRecord> {
    var n := if limit < |log| then limit else |log|;
    Reverse(log)[..n]
  }

  /** Reading memory restores chronological order: it yields the last `limit` turns of
      the log, oldest first. */
  lemma GetMemoryChronological(log: seq<MemoryRecord>, limit: nat)
    ensures var n := if limit < |log| then limit else |log|;
      GetMemory(Some(NewestFirst(log, limit))) == seq(n, i requires 0 <= i < n => ToTurn(log[|log| - n + i]))
  {
    var n := if limit < |log| then limit else |log|;
    ReverseLength(log);
    var w := NewestFirst(log, limit);
    assert |w| == n;
    forall i | 0 <= i < n
      ensures GetMemory(Some(w))[i] == ToTurn(log[|log| - n + i])
    {
      GetMemoryAt(w, i);
      ReverseAt(log, n - 1 - i);
    }
    if n > 0 { GetMemoryAt(w, 0); }
  }

  /** One history line: "Пользователь: t" for the user, "Ассистент: t" for anyone else. */
  function HistoryLine(t: Turn): string {
    (if t.role == "user" then "Пользователь" else "Ассистент") + ": " + t.text
  }

  function HistoryLines(turns: seq<Turn>): seq<string> {
    seq(|turns|, i requires 0 <= i < |turns| => HistoryLine(turns[i]))
  }

  /** The history text of `ask`: the history lines joined with ";\n". */
  function RenderHistory(turns: seq<Turn>): string {
    Join(";\n", HistoryLines(turns))
  }

  /** The history is empty exactly when there are no turns, and one more turn adds its
      line after a ";\n". */
  lemma RenderHistoryAppend(turns: seq<Turn>, t: Turn)
    ensures RenderHistory([]) == ""
    ensures RenderHistory([t]) == HistoryLine(t)
    ensures turns != [] ==> RenderHistory(turns + [t]) == RenderHistory(turns) + ";\n" + HistoryLine(t)
  {
    if turns != [] {
      assert HistoryLines(turns + [t]) == HistoryLines(turns) + [HistoryLine(t)];
      JoinSnoc(";\n", HistoryLines(turns), HistoryLine(t));
    }
  }

  lemma RenderHistoryEmpty(turns: seq<Turn>)
    ensures RenderHistory(turns) == "" <==> turns == []
  {
    if turns != [] {
      var lines := HistoryLines(turns);
      assert |HistoryLine(turns[0])| > 0;
      if |lines| > 1 {
        assert |Join(";\n", lines)| >= |lines[0]|;
      }
    }
  }

  // ===========================================================================
  // askVoice

  /** How many records `ask` reads back. */
  const MemoryLimit: nat := 10

  const LocalReply: string := "Уже делаю"

  /** The history text `ask` renders from what the store returns for the last `limit`
      records of `log`. */
  function AskHistory(log: seq<MemoryRecord>, limit: nat): string {
    RenderHistory(GetMemory(Some(NewestFirst(log, limit))))
  }

  /** The prompt `ask` sends: instructions, the history rendered from what the memory
      query answered (nothing when it failed) and the utterance. */
  function AskPrompt(instructions: seq<string>, memory: Option<seq<MemoryRecord>>,
                     userText: string): string {
    Assistant.BuildPrompt(instructions, RenderHistory(GetMemory(memory)), userText)
  }

  /** The history always ends with the line of the newest record. */
  lemma HistoryEndsWithLatest(log: seq<MemoryRecord>, latest: MemoryRecord, limit: nat)
    requires limit >= 1
    ensures EndsWith(AskHistory(log + [latest], limit), HistoryLine(ToTurn(latest)))
  {
    var l := log + [latest];
    var n := if limit < |l| then limit else |l|;
    GetMemoryChronological(l, limit);
    var turns := GetMemory(Some(NewestFirst(l, limit)));
    assert turns[n - 1] == ToTurn(latest);
    var t := ToTurn(latest);
    RenderHistoryAppend(turns[..n - 1], t);
    assert turns == turns[..n - 1] + [t];
    var h := RenderHistory(turns);
    var line := HistoryLine(t);
    assert h[|h| - |line|..] == line;
  }

  /** What one voice request does: the turns it saves to memory in order, the message
      the fast path relays to Telegram, the prompt it sends to the language model, and
      the text it speaks (turned into the returned audio) or the error it fails with.
      `saved` lists the writes attempted: a write that fails is logged and the request
      goes on, so the request itself does not depend on it. */
  datatype VoiceRun = VoiceRun(saved: seq<Turn>, relayed: Option<string>,
                               prompt: Option<string>, outcome: Result<string, string>)

  /** `askVoice`, given the transcript, the stored instructions, what the memory query
      inside `ask` answered (None when it failed), the model's answer, whether the relay
      accepted the fast path's message and whether speech synthesis succeeded. The
      user's turn is saved first. The fast path relays the detected body, remembers the
      command once the relay has accepted it and speaks a fixed reply without asking the
      model; otherwise the prompt is built from the memory read back, and the cleaned
      answer is remembered and then spoken. A failed read leaves the history empty. A
      failed relay stops the request before the command is remembered; a failed
      synthesis stops it after the reply is. */
  function AskVoice(transcript: string, instructions: seq<string>,
                    memory: Option<seq<MemoryRecord>>, answer: string,
                    relayOk: bool, speechOk: bool): (run: VoiceRun)
    ensures transcript == "" ==>
      run.saved == [] && run.relayed.None? && run.prompt.None? && run.outcome.Failure?
    ensures transcript != "" ==> run.saved != [] && run.saved[0] == Turn("user", transcript)
    ensures |run.saved| <= 2
    ensures run.relayed.Some? <==> transcript != "" && LocalCommand(transcript).Some?
    ensures run.relayed.Some? ==>
      && run.prompt.None?
      && run.relayed == FirstCommand(LocalPatterns, Normalize(transcript))
      && run.relayed.value != ""
      && (|run.saved| == 2 <==> relayOk)
      && (|run.saved| == 2 ==> run.saved[1] == Turn("assistant", LocalCommand(transcript).value))
      && (run.outcome.Success? <==> relayOk && speechOk)
      && (run.outcome.Success? ==> run.outcome.value == LocalReply)
    ensures transcript != "" && LocalCommand(transcript).None? ==>
      && run.prompt.Some?
      && (memory.Some? ==>
            run.prompt.value
            == Assistant.BuildPrompt(instructions, RenderHistory(GetMemory(memory)), transcript))
      && (memory.None? ==> run.prompt.value == Assistant.BuildPrompt(instructions, "", transcript))
      && (|run.saved| == 2 <==> answer != "")
      && (run.outcome.Success? <==> answer != "" && speechOk)
    ensures run.outcome.Success? ==>
      |run.saved| == 2 && run.saved[1].role == "assistant" && |run.outcome.value| >= 3
    ensures run.prompt.Some? && |run.saved| == 2 ==>
      && run.saved[1] == Turn("assistant", SimpleClean(answer))
      && (run.outcome.Success? ==> run.outcome.value == SimpleClean(answer))
  {
    if transcript == "" then VoiceRun([], None, None, Failure("Speech-to-text failed"))
    else
      var heard := Turn("user", transcript);
      match LocalCommand(transcript)
      case Some(command) =>
        LocalCommandRoundTrip(transcript);
        var relayed := Some(StripMarkers(command));
        if !relayOk then VoiceRun([heard], relayed, None, Failure("Telegram relay failed"))
        else
          var saved := [heard, Turn("assistant", command)];
          if !speechOk then VoiceRun(saved, relayed, None, Failure("Text-to-speech failed"))
          else VoiceRun(saved, relayed, None, Success(LocalReply))
      case None =>
        var prompt := AskPrompt(instructions, memory, transcript);
        if answer == "" then VoiceRun([heard], None, Some(prompt), Failure("LLaMA failed"))
        else
          var reply := SimpleClean(answer);
          var saved := [heard, Turn("assistant", reply)];
          if !speechOk then VoiceRun(saved, None, Some(prompt), Failure("Text-to-speech failed"))
          else VoiceRun(saved, None, Some(prompt), Success(reply))
  }

  /** When the save of the utterance went through and the query reads back the newest
      records of the log, the history in the prompt ends with the utterance itself, which
      the prompt's last lines then repeat. */
  lemma AskVoiceSeesUtterance(transcript: string, instructions: seq<string>,
                              log: seq<MemoryRecord>, now: int, answer: string,
                              relayOk: bool, speechOk: bool)
    ensures
      var latest := MemoryRecord("user", transcript, now);
      var memory := Some(NewestFirst(log + [latest], MemoryLimit));
      var run := AskVoice(transcript, instructions, memory, answer, relayOk, speechOk);
      run.prompt.Some? ==>
        && EndsWith(AskHistory(log + [latest], MemoryLimit), HistoryLine(Turn("user", transcript)))
        && run.prompt.value
           == Assistant.BuildPrompt(instructions, AskHistory(log + [latest], MemoryLimit), transcript)
  {
    HistoryEndsWithLatest(log, MemoryRecord("user", transcript, now), MemoryLimit);
  }
}
