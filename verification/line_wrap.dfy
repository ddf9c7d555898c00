/** Greedy word wrapping against a pixel budget (`TextOverlay._wrap_text`). */
module LineWrap {
  import opened Base
  import opened Words
  import opened Canvas

  /** A line keeps to the budget, unless it is a single word (words hold no space). */
  predicate Fits(line: string, maxWidth: int, width: string -> nat)
  {
    ' ' !in line || width(line) <= maxWidth
  }

  /** The wrapping loop from the point where `line` is being built and `rest` are
      the words not yet placed: each word joins the current line when the line with
      it still measures within `maxWidth`, and otherwise closes the line and starts
      the next one. */
  function Pack(line: string, rest: seq<string>, maxWidth: int, width: string -> nat): (lines: seq<string>)
    ensures 1 <= |lines| <= |rest| + 1
    decreases |rest|
  {
    if |rest| == 0 then [line]
    else
      var candidate := line + " " + rest[0];
      if width(candidate) <= maxWidth then Pack(candidate, rest[1..], maxWidth, width)
      else [line] + Pack(rest[0], rest[1..], maxWidth, width)
  }

  /** Packing neither loses, duplicates nor reorders words: the lines joined with
      single spaces are the words joined with single spaces. */
  lemma {:induction false} PackJoin(line: string, rest: seq<string>, maxWidth: int, width: string -> nat)
    ensures Join(" ", Pack(line, rest, maxWidth, width)) == Join(" ", [line] + rest)
    decreases |rest|
  {
    if |rest| > 0 {
      var candidate := line + " " + rest[0];
      JoinCons(" ", line, rest);
      assert [rest[0]] + rest[1..] == rest;
      if width(candidate) <= maxWidth {
        PackJoin(candidate, rest[1..], maxWidth, width);
        if |rest| == 1 {
          assert [candidate] + rest[1..] == [candidate];
        } else {
          JoinCons(" ", candidate, rest[1..]);
          JoinCons(" ", rest[0], rest[1..]);
        }
      } else {
        var tail := Pack(rest[0], rest[1..], maxWidth, width);
        PackJoin(rest[0], rest[1..], maxWidth, width);
        JoinCons(" ", line, tail);
      }
    }
  }

  /** Every line that holds more than one word keeps to the budget. */
  lemma {:induction false} PackFits(line: string, rest: seq<string>, maxWidth: int, width: string -> nat)
    requires Fits(line, maxWidth, width)
    requires forall i :: 0 <= i < |rest| ==> IsWord(rest[i])
    ensures forall i :: 0 <= i < |Pack(line, rest, maxWidth, width)| ==> Fits(Pack(line, rest, maxWidth, width)[i], maxWidth, width)
    decreases |rest|
  {
    if |rest| > 0 {
      var candidate := line + " " + rest[0];
      if width(candidate) <= maxWidth {
        PackFits(candidate, rest[1..], maxWidth, width);
      } else {
        WordHasNoBlank(rest[0]);
        PackFits(rest[0], rest[1..], maxWidth, width);
      }
    }
  }

  /** The first line produced starts with `line`, followed by nothing or a space. */
  lemma {:induction false} PackHead(line: string, rest: seq<string>, maxWidth: int, width: string -> nat)
    ensures var first := Pack(line, rest, maxWidth, width)[0];
      |line| <= |first| && first[..|line|] == line && (|first| == |line| || first[|line|] == ' ')
    decreases |rest|
  {
    if |rest| > 0 {
      var candidate := line + " " + rest[0];
      if width(candidate) <= maxWidth {
        PackHead(candidate, rest[1..], maxWidth, width);
        var first := Pack(candidate, rest[1..], maxWidth, width)[0];
        assert first[..|candidate|] == candidate;
        assert first[..|line|] == candidate[..|line|];
        assert first[|line|] == candidate[|line|];
      }
    }
  }

  /** Greedy maximality: a line was closed only because its next word would not fit. */
  lemma {:induction false} PackMaximal(line: string, rest: seq<string>, maxWidth: int, width: string -> nat)
    requires forall i :: 0 <= i < |rest| ==> IsWord(rest[i])
    ensures var lines := Pack(line, rest, maxWidth, width);
      forall i :: 0 <= i < |lines| - 1 ==> width(lines[i] + " " + FirstWord(lines[i + 1])) > maxWidth
    decreases |rest|
  {
    if |rest| > 0 {
      var candidate := line + " " + rest[0];
      if width(candidate) <= maxWidth {
        PackMaximal(candidate, rest[1..], maxWidth, width);
        assert Pack(line, rest, maxWidth, width) == Pack(candidate, rest[1..], maxWidth, width);
      } else {
        var tail := Pack(rest[0], rest[1..], maxWidth, width);
        PackMaximal(rest[0], rest[1..], maxWidth, width);
        PackHead(rest[0], rest[1..], maxWidth, width);
        FirstWordOf(tail[0], rest[0]);
        var lines := [line] + tail;
        assert lines == Pack(line, rest, maxWidth, width);
        forall i | 0 <= i < |lines| - 1
          ensures width(lines[i] + " " + FirstWord(lines[i + 1])) > maxWidth
        {
          if i > 0 {
            assert lines[i] == tail[i - 1] && lines[i + 1] == tail[i];
          }
        }
      }
    }
  }

  /** When nothing at all fits the budget, every word gets a line of its own. */
  lemma {:induction false} PackNarrow(line: string, rest: seq<string>, maxWidth: int, width: string -> nat)
    requires forall s :: width(s) > maxWidth
    ensures Pack(line, rest, maxWidth, width) == [line] + rest
    decreases |rest|
  {
    if |rest| > 0 {
      PackNarrow(rest[0], rest[1..], maxWidth, width);
      assert [rest[0]] + rest[1..] == rest;
    }
  }

  /** `_wrap_text(text, max_width, font)`. */
  function Wrap(text: string, maxWidth: int, font: Font): (lines: seq<string>)
    ensures lines == [] <==> AllSpace(text)
    ensures Join(" ", lines) == Join(" ", Split(text))
    ensures Split(Join(" ", lines)) == Split(text)
    ensures forall i :: 0 <= i < |lines| ==> Fits(lines[i], maxWidth, font.width)
    ensures forall i :: 0 <= i < |lines| - 1 ==> font.width(lines[i] + " " + FirstWord(lines[i + 1])) > maxWidth
  {
    var words := Split(text);
    SplitNothing(text);
    SplitJoin(words);
    if words == [] then []
    else
      assert [words[0]] + words[1..] == words;
      WordHasNoBlank(words[0]);
      PackJoin(words[0], words[1..], maxWidth, font.width);
      PackFits(words[0], words[1..], maxWidth, font.width);
      PackMaximal(words[0], words[1..], maxWidth, font.width);
      Pack(words[0], words[1..], maxWidth, font.width)
  }

  /** A budget below every measured width (a negative one, say) puts each word on
      its own line. */
  lemma WrapNarrow(text: string, maxWidth: int, font: Font)
    requires forall s :: font.width(s) > maxWidth
    ensures Wrap(text, maxWidth, font) == Split(text)
  {
    var words := Split(text);
    if words != [] {
      PackNarrow(words[0], words[1..], maxWidth, font.width);
      assert [words[0]] + words[1..] == words;
    }
  }

  /** In particular a negative budget, as `width - 2 * padding` gives for a narrow box. */
  lemma WrapNegativeBudget(text: string, maxWidth: int, font: Font)
    requires maxWidth < 0
    ensures Wrap(text, maxWidth, font) == Split(text)
  {
    WrapNarrow(text, maxWidth, font);
  }
}
