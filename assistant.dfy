/** Prompt and answer utilities of the voice assistant (server/src/utils/assistant.ts):
    the cleaner applied to raw language-model output and the builder that linearises
    instructions, dialogue history and the new utterance into one completion prompt. */
module Assistant {
  import opened Text

  const UserTag: string := "Пользователь:"
  const AssistantTag: string := "Ассистент:"
  const ParagraphBreak: string := "\n\n"

  const InstructionsHeader: string := "=== Instructions ==="
  const HistoryHeader: string := "=== Dialogue history ==="
  const AssistantCue: string := "Ассистент:"

  // ---------------------------------------------------------------------------
  // cleanAssistantAnswer

  /** How much of `s` the lazy `.*?\n` consumes: everything up to and including the
      first '\n', provided no other line terminator (which `.` refuses) comes first. */
  function LineRest(s: string): (r: Option<nat>)
    ensures r.Some? ==> 0 < r.value <= |s| && s[r.value - 1] == '\n'
    ensures r.Some? ==> forall k | 0 <= k < r.value - 1 :: !IsLineTerminator(s[k])
  {
    if s == [] then None
    else if s[0] == '\n' then Some(1)
    else if IsLineTerminator(s[0]) then None
    else
      match LineRest(s[1..])
      case None => None
      case Some(k) => Some(k + 1)
  }

  /** `s.replace(/Пользователь:.*?\n/g, "")`: every "Пользователь:" whose line is ended by
      a '\n' is deleted together with the rest of that line and the '\n'. */
  function DropUserLines(s: string): (r: string)
    ensures |r| <= |s|
    decreases |s|
  {
    if s == [] then []
    else if StartsWith(s, UserTag) && LineRest(s[|UserTag|..]).Some? then
      DropUserLines(s[|UserTag| + LineRest(s[|UserTag|..]).value..])
    else [s[0]] + DropUserLines(s[1..])
  }

  /** `s.split(/\n\n/)[0]`: the text before the first paragraph break. */
  function FirstBlock(s: string): (r: string)
    ensures |r| <= |s| && r == s[..|r|]
    ensures !Contains(r, ParagraphBreak)
  {
    match IndexOf(s, ParagraphBreak)
    case None => s
    case Some(i) =>
      var r := s[..i];
      forall j: nat | OccursAt(r, ParagraphBreak, j) ensures false {
        assert s[0..i] == r;
        OccursInSlice(s, 0, i, ParagraphBreak, j);
      }
      r
  }

  /** `cleanAssistantAnswer`: drop user lines the model echoed, drop every "Ассистент:"
      label, keep the first paragraph, trim. The result is never longer than the input,
      holds no paragraph break and has no white space at either end. */
  function CleanAssistantAnswer(text: string): (r: string)
    ensures text == "" ==> r == ""
    ensures |r| <= |text|
    ensures !Contains(r, ParagraphBreak)
    ensures IsTrimmed(r)
  {
    if text == "" then ""
    else
      var block := FirstBlock(RemoveAll(DropUserLines(text), AssistantTag));
      TrimAvoids(block, ParagraphBreak);
      Trim(block)
  }

  /** The lazy `.*?\n` stops at the first '\n' of a line free of other terminators. */
  lemma {:induction false} LineRestOfLine(x: string, y: string)
    requires forall k | 0 <= k < |x| :: !IsLineTerminator(x[k])
    ensures LineRest(x + "\n" + y) == Some(|x| + 1)
  {
    if x != [] {
      assert (x + "\n" + y)[1..] == x[1..] + "\n" + y;
      LineRestOfLine(x[1..], y);
    }
  }

  /** A "Пользователь:" line ended by a newline disappears with its newline. */
  lemma UserLineDropped(x: string, y: string)
    requires forall k | 0 <= k < |x| :: !IsLineTerminator(x[k])
    ensures DropUserLines(UserTag + x + "\n" + y) == DropUserLines(y)
  {
    var s := UserTag + x + "\n" + y;
    assert s[..|UserTag|] == UserTag;
    assert s[|UserTag|..] == x + "\n" + y;
    LineRestOfLine(x, y);
    assert s[|UserTag| + |x| + 1..] == y;
  }

  lemma LineRestNeedsNewline(s: string)
    ensures LineRest(s).Some? ==> '\n' in s
  {
    if LineRest(s).Some? {
      assert s[LineRest(s).value - 1] == '\n';
    }
  }

  /** Text without any newline, including a "Пользователь:" on a last line, is kept. */
  lemma {:induction false} NoNewlineKept(s: string)
    requires '\n' !in s
    ensures DropUserLines(s) == s
  {
    if s != [] {
      if |UserTag| <= |s| {
        LineRestNeedsNewline(s[|UserTag|..]);
        assert '\n' !in s[|UserTag|..];
      }
      assert '\n' !in s[1..] by {
        forall k | 0 <= k < |s| - 1 ensures s[1..][k] != '\n' { assert s[1..][k] == s[k + 1]; }
      }
      NoNewlineKept(s[1..]);
    }
  }

  // ---------------------------------------------------------------------------
  // buildPrompt

  /** `xs.filter(Boolean)` on strings: drops the empty ones. */
  function NonEmpty(xs: seq<string>): seq<string> {
    if xs == [] then []
    else if xs[0] == "" then NonEmpty(xs[1..])
    else [xs[0]] + NonEmpty(xs[1..])
  }

  /** The filter keeps exactly the non-empty strings, in order. */
  lemma {:induction false} NonEmptyKeeps(xs: seq<string>, x: string)
    ensures x in NonEmpty(xs) <==> x in xs && x != ""
    ensures "" !in NonEmpty(xs)
  {
    if xs != [] {
      NonEmptyKeeps(xs[1..], x);
      assert xs == [xs[0]] + xs[1..];
    }
  }

  function UserLine(userText: string): string {
    "Пользователь: " + userText
  }

  /** The six candidate lines of a prompt, before the empty ones are dropped: three
      sections of a heading line and a body line. */
  function PromptParts(instructions: seq<string>, history: string, userText: string): seq<string> {
    [InstructionsHeader, Join("\n", instructions)] + [HistoryHeader, history] + [UserLine(userText), AssistantCue]
  }

  /** `buildPrompt(instructions, history, userText)`. */
  function BuildPrompt(instructions: seq<string>, history: string, userText: string): string {
    Join("\n", NonEmpty(PromptParts(instructions, history, userText)))
  }

  /** A line that is present only when it is not empty. */
  function Optional(line: string): (r: seq<string>)
    ensures |r| <= 1
  {
    if line == "" then [] else [line]
  }

  /** Filtering distributes over concatenation. */
  lemma {:induction false} NonEmptyAppend(xs: seq<string>, ys: seq<string>)
    ensures NonEmpty(xs + ys) == NonEmpty(xs) + NonEmpty(ys)
  {
    if xs == [] {
      assert xs + ys == ys;
    } else {
      var t := xs[1..];
      assert (xs + ys)[0] == xs[0] && (xs + ys)[1..] == t + ys;
      NonEmptyAppend(t, ys);
      if xs[0] != "" {
        assert [xs[0]] + (NonEmpty(t) + NonEmpty(ys)) == ([xs[0]] + NonEmpty(t)) + NonEmpty(ys);
      }
    }
  }

  lemma NonEmptyPair(x: string, y: string)
    ensures NonEmpty([x, y]) == Optional(x) + Optional(y)
  {
    assert [x, y][1..] == [y];
    assert [y][1..] == [];
    assert NonEmpty([y]) == Optional(y) + NonEmpty([]);
  }

  /** The lines of a prompt: the instructions header, the joined instructions when there
      are any, the history header, the history when there is any, the user line and the
      assistant cue. Both headers, the user line and the cue are always there. */
  lemma BuildPromptLines(instructions: seq<string>, history: string, userText: string)
    ensures BuildPrompt(instructions, history, userText)
         == Join("\n", [InstructionsHeader] + (Optional(Join("\n", instructions)) + ([HistoryHeader]
                       + (Optional(history) + [UserLine(userText), AssistantCue]))))
  {
    var first := [InstructionsHeader, Join("\n", instructions)];
    var second := [HistoryHeader, history];
    var third := [UserLine(userText), AssistantCue];
    NonEmptyAppend(first + second, third);
    NonEmptyAppend(first, second);
    NonEmptyPair(InstructionsHeader, Join("\n", instructions));
    NonEmptyPair(HistoryHeader, history);
    NonEmptyPair(UserLine(userText), AssistantCue);
    assert Optional(InstructionsHeader) == [InstructionsHeader];
    assert Optional(HistoryHeader) == [HistoryHeader];
    assert Optional(UserLine(userText)) + Optional(AssistantCue) == third;
    var o1 := Optional(Join("\n", instructions));
    var o2 := Optional(history);
    assert ([InstructionsHeader] + o1) + ([HistoryHeader] + o2) + third
        == [InstructionsHeader] + (o1 + ([HistoryHeader] + (o2 + third)));
  }

  /** A joined list starts with its first element. */
  lemma JoinStarts(sep: string, xs: seq<string>)
    requires xs != []
    ensures StartsWith(Join(sep, xs), xs[0])
  {
    if |xs| > 1 {
      assert Join(sep, xs)[..|xs[0]|] == xs[0];
    }
  }

  /** A joined list ends with its last two elements and the separator between them. */
  lemma {:induction false} JoinEnds(sep: string, xs: seq<string>)
    requires |xs| >= 2
    ensures EndsWith(Join(sep, xs), xs[|xs| - 2] + sep + xs[|xs| - 1])
  {
    var e := xs[|xs| - 2] + sep + xs[|xs| - 1];
    if |xs| == 2 {
      assert Join(sep, xs) == e;
      assert Join(sep, xs)[|Join(sep, xs)| - |e|..] == e;
    } else {
      var t := xs[1..];
      JoinEnds(sep, t);
      var p := xs[0] + sep;
      var jt := Join(sep, t);
      assert Join(sep, xs) == p + jt;
      assert (p + jt)[|p + jt| - |e|..] == jt[|jt| - |e|..];
    }
  }

  /** Every element of a joined list occurs in the joined string. */
  lemma {:induction false} JoinHas(sep: string, xs: seq<string>, k: nat)
    requires k < |xs|
    ensures Contains(Join(sep, xs), xs[k])
  {
    if k == 0 {
      JoinStarts(sep, xs);
      assert OccursAt(Join(sep, xs), xs[0], 0);
    } else {
      var t := xs[1..];
      JoinHas(sep, t, k - 1);
      var p := xs[0] + sep;
      var jt := Join(sep, t);
      assert Join(sep, xs) == p + jt;
      var j: nat :| j <= |jt| && OccursAt(jt, t[k - 1], j);
      assert (p + jt)[|p| + j..|p| + j + |xs[k]|] == jt[j..j + |xs[k]|];
      assert OccursAt(Join(sep, xs), xs[k], |p| + j);
    }
  }

  /** The prompt always opens with the instructions header, always holds the history
      header, and always closes with the user's line and the assistant cue. */
  lemma BuildPromptFrame(instructions: seq<string>, history: string, userText: string)
    ensures var p := BuildPrompt(instructions, history, userText);
      && StartsWith(p, InstructionsHeader)
      && Contains(p, HistoryHeader)
      && EndsWith(p, UserLine(userText) + "\n" + AssistantCue)
  {
    BuildPromptLines(instructions, history, userText);
    var head := [InstructionsHeader] + Optional(Join("\n", instructions));
    var lines := [InstructionsHeader] + (Optional(Join("\n", instructions)) + ([HistoryHeader]
                 + (Optional(history) + [UserLine(userText), AssistantCue])));
    assert lines[0] == InstructionsHeader;
    assert lines[|head|] == HistoryHeader;
    assert lines[|lines| - 2] == UserLine(userText) && lines[|lines| - 1] == AssistantCue;
    JoinStarts("\n", lines);
    JoinHas("\n", lines, |head|);
    JoinEnds("\n", lines);
  }

  /** With no instructions and no history only the two headers, the user line and the
      cue remain. */
  lemma BuildPromptEmpty(userText: string)
    ensures BuildPrompt([], "", userText)
         == Join("\n", [InstructionsHeader, HistoryHeader, UserLine(userText), AssistantCue])
  {
    BuildPromptLines([], "", userText);
    assert Optional(Join("\n", [])) == [];
    assert [InstructionsHeader] + ([] + ([HistoryHeader] + ([] + [UserLine(userText), AssistantCue])))
        == [InstructionsHeader, HistoryHeader, UserLine(userText), AssistantCue];
  }
}
