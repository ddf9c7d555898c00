/** Python's `str.split()` without a separator: the text is cut at every run of
    whitespace, and leading or trailing whitespace produces no empty words. */
module Words {
  import opened Base

  /** The characters `str.split()` treats as whitespace (those for which `str.isspace()` holds). */
  predicate IsSpace(c: char)
  {
    var n := c as int;
    || 0x09 <= n <= 0x0D
    || 0x1C <= n <= 0x20
    || n == 0x85 || n == 0xA0 || n == 0x1680
    || 0x2000 <= n <= 0x200A
    || n == 0x2028 || n == 0x2029 || n == 0x202F || n == 0x205F || n == 0x3000
  }

  /** A word as `str.split()` produces it: non-empty, without whitespace. */
  predicate IsWord(w: string)
  {
    |w| > 0 && forall i :: 0 <= i < |w| ==> !IsSpace(w[i])
  }

  predicate AllSpace(s: string)
  {
    forall i :: 0 <= i < |s| ==> IsSpace(s[i])
  }

  /** Length of the leading run of non-whitespace characters of `s`. */
  function WordLen(s: string): (n: nat)
    ensures n <= |s|
    ensures forall i :: 0 <= i < n ==> !IsSpace(s[i])
    ensures n < |s| ==> IsSpace(s[n])
  {
    if |s| == 0 || IsSpace(s[0]) then 0 else 1 + WordLen(s[1..])
  }

  /** `s.split()`. */
  function Split(s: string): (words: seq<string>)
    ensures forall i :: 0 <= i < |words| ==> IsWord(words[i])
    decreases |s|
  {
    if |s| == 0 then []
    else if IsSpace(s[0]) then Split(s[1..])
    else
      var n := WordLen(s);
      [s[..n]] + Split(s[n..])
  }

  /** The first word of a line that starts with one. */
  function FirstWord(s: string): string
  {
    s[..WordLen(s)]
  }

  lemma WordHasNoBlank(w: string)
    requires IsWord(w)
    ensures ' ' !in w
  {
    assert IsSpace(' ');
  }

  /** A string splits into nothing exactly when it is empty or all whitespace. */
  lemma {:induction false} SplitNothing(s: string)
    ensures Split(s) == [] <==> AllSpace(s)
    decreases |s|
  {
    if |s| > 0 {
      if IsSpace(s[0]) {
        SplitNothing(s[1..]);
        if AllSpace(s[1..]) {
          forall i | 0 <= i < |s|
            ensures IsSpace(s[i])
          {
            if i > 0 {
              assert s[i] == s[1..][i - 1];
            }
          }
        }
        if AllSpace(s) {
          forall i | 0 <= i < |s| - 1
            ensures IsSpace(s[1..][i])
          {
            assert s[1..][i] == s[i + 1];
          }
        }
      } else {
        assert !IsSpace(s[0]);
      }
    }
  }

  /** A word followed by nothing or by whitespace is read back whole. */
  lemma WordLenOf(w: string, t: string)
    requires forall i :: 0 <= i < |w| ==> !IsSpace(w[i])
    requires |t| == 0 || IsSpace(t[0])
    ensures WordLen(w + t) == |w|
  {
    var s := w + t;
    assert forall i :: 0 <= i < |w| ==> s[i] == w[i];
    assert |t| > 0 ==> s[|w|] == t[0];
  }

  /** The first word of a line made of `w` and then nothing or a space is `w`. */
  lemma FirstWordOf(s: string, w: string)
    requires IsWord(w)
    requires |w| <= |s| && s[..|w|] == w
    requires |s| == |w| || s[|w|] == ' '
    ensures FirstWord(s) == w
  {
    var t := s[|w|..];
    assert s == w + t;
    assert |t| == 0 || t[0] == ' ';
    assert IsSpace(' ');
    WordLenOf(w, t);
  }

  /** A word on its own splits into itself. */
  lemma SplitWord(w: string)
    requires IsWord(w)
    ensures Split(w) == [w]
  {
    WordLenOf(w, "");
    assert w + "" == w;
    assert w[..|w|] == w;
    assert w[|w|..] == "";
  }

  /** Any whitespace character separates: the words on either side of it are split
      independently. With `SplitWord` and `SplitNothing` this pins `Split` down as
      the maximal non-whitespace runs of the text, in order. */
  lemma {:induction false} SplitAtSpace(u: string, c: char, v: string)
    requires IsSpace(c)
    ensures Split(u + [c] + v) == Split(u) + Split(v)
    decreases |u|
  {
    var s := u + [c] + v;
    if |u| == 0 {
      assert s[1..] == v;
    } else if IsSpace(u[0]) {
      assert s[0] == u[0];
      assert s[1..] == u[1..] + [c] + v;
      SplitAtSpace(u[1..], c, v);
    } else {
      var m := WordLen(u);
      var t := u[m..] + [c] + v;
      assert s == u[..m] + t;
      assert t[0] == if m < |u| then u[m] else c;
      WordLenOf(u[..m], t);
      assert s[..m] == u[..m];
      assert s[m..] == t;
      SplitAtSpace(u[m..], c, v);
    }
  }

  /** Splitting words that were joined with single spaces gives the words back. */
  lemma {:induction false} SplitJoin(ws: seq<string>)
    requires forall i :: 0 <= i < |ws| ==> IsWord(ws[i])
    ensures Split(Join(" ", ws)) == ws
  {
    if |ws| == 1 {
      var s := ws[0];
      WordLenOf(s, "");
      assert s + "" == s;
      assert s[..|s|] == s;
      assert s[|s|..] == "";
    } else if |ws| > 1 {
      var rest := Join(" ", ws[1..]);
      var s := ws[0] + (" " + rest);
      assert Join(" ", ws) == s;
      assert IsSpace(' ');
      WordLenOf(ws[0], " " + rest);
      assert s[..|ws[0]|] == ws[0];
      assert s[|ws[0]|..] == " " + rest;
      assert (" " + rest)[1..] == rest;
      SplitJoin(ws[1..]);
      assert [ws[0]] + ws[1..] == ws;
    }
  }
}
