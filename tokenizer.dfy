/** Python's whitespace handling on `str`, as the request processor uses it:
    `str.split()` with no separator, `str.strip()` with no argument and `" ".join(...)`. */
module Tokenizer {

  /** The characters for which Python's `str.isspace()` holds; `split()` and `strip()`
      both separate on exactly these. */
  predicate IsSpace(c: char) {
    || c == ' ' || c == '\t' || c == '\n' || c == '\r'
    || c == '\U{B}' || c == '\U{C}'
    || ('\U{1C}' <= c <= '\U{1F}')
    || c == '\U{85}' || c == '\U{A0}' || c == '\U{1680}'
    || ('\U{2000}' <= c <= '\U{200A}')
    || c == '\U{2028}' || c == '\U{2029}' || c == '\U{202F}' || c == '\U{205F}' || c == '\U{3000}'
  }

  predicate NoSpace(s: string) {
    forall i :: 0 <= i < |s| ==> !IsSpace(s[i])
  }

  /** A token as `split()` produces it: non-empty, without whitespace. */
  predicate IsToken(t: string) {
    |t| > 0 && NoSpace(t)
  }

  predicate AllTokens(ts: seq<string>) {
    forall i :: 0 <= i < |ts| ==> IsToken(ts[i])
  }

  predicate IsBlank(s: string) {
    forall i :: 0 <= i < |s| ==> IsSpace(s[i])
  }

  predicate StartsWith(s: string, prefix: string) {
    |prefix| <= |s| && s[..|prefix|] == prefix
  }

  /** The token under construction, emitted if non-empty. */
  function Flush(cur: string): seq<string> {
    if cur == [] then [] else [cur]
  }

  /** Scans `s` left to right; `cur` is the run of non-whitespace characters seen so far. */
  function SplitFrom(s: string, cur: string): (tokens: seq<string>)
    requires NoSpace(cur)
    ensures AllTokens(tokens)
    decreases |s|
  {
    if s == [] then Flush(cur)
    else if IsSpace(s[0]) then Flush(cur) + SplitFrom(s[1..], [])
    else SplitFrom(s[1..], cur + [s[0]])
  }

  /** `s.split()`: the maximal runs of non-whitespace characters, in order. */
  function Split(s: string): (tokens: seq<string>)
    ensures AllTokens(tokens)
  {
    SplitFrom(s, [])
  }

  /** `" ".join(words)` */
  function Join(words: seq<string>): string
    decreases |words|
  {
    if words == [] then ""
    else if |words| == 1 then words[0]
    else words[0] + " " + Join(words[1..])
  }

  function StripLeft(s: string): string
    decreases |s|
  {
    if s != [] && IsSpace(s[0]) then StripLeft(s[1..]) else s
  }

  function StripRight(s: string): string
    decreases |s|
  {
    if s != [] && IsSpace(s[|s| - 1]) then StripRight(s[..|s| - 1]) else s
  }

  /** `s.strip()` */
  function Strip(s: string): string {
    StripRight(StripLeft(s))
  }

  /** No token that `split()` yields contains a space character. */
  lemma TokensHaveNoSpace(s: string)
    ensures forall i :: 0 <= i < |Split(s)| ==> ' ' !in Split(s)[i]
  {
    var ts := Split(s);
    forall i | 0 <= i < |ts| ensures ' ' !in ts[i] {
      assert IsToken(ts[i]);
    }
  }

  /** A whitespace-free prefix only extends the token under construction. */
  lemma {:induction false} SplitFromWord(w: string, rest: string, cur: string)
    requires NoSpace(w) && NoSpace(cur)
    ensures NoSpace(cur + w)
    ensures SplitFrom(w + rest, cur) == SplitFrom(rest, cur + w)
    decreases |w|
  {
    assert NoSpace(cur + w) by {
      forall i | 0 <= i < |cur + w| ensures !IsSpace((cur + w)[i]) {
        if i < |cur| { assert (cur + w)[i] == cur[i]; } else { assert (cur + w)[i] == w[i - |cur|]; }
      }
    }
    if w == [] {
      assert w + rest == rest;
      assert cur + w == cur;
    } else {
      assert (w + rest)[0] == w[0];
      assert (w + rest)[1..] == w[1..] + rest;
      assert NoSpace(cur + [w[0]]) by {
        forall i | 0 <= i < |cur + [w[0]]| ensures !IsSpace((cur + [w[0]])[i]) {
          if i < |cur| { assert (cur + [w[0]])[i] == cur[i]; }
        }
      }
      SplitFromWord(w[1..], rest, cur + [w[0]]);
      assert (cur + [w[0]]) + w[1..] == cur + w;
    }
  }

  /** Round trip: splitting a space-joined list of tokens gives the tokens back. */
  lemma {:induction false} SplitJoin(words: seq<string>)
    requires AllTokens(words)
    ensures Split(Join(words)) == words
    decreases |words|
  {
    if words == [] {
    } else if |words| == 1 {
      SplitFromWord(words[0], "", "");
      assert words[0] + "" == words[0];
      assert "" + words[0] == words[0];
    } else {
      var w, tail := words[0], Join(words[1..]);
      assert Join(words) == w + (" " + tail);
      SplitFromWord(w, " " + tail, "");
      assert "" + w == w;
      assert (" " + tail)[0] == ' ';
      assert (" " + tail)[1..] == tail;
      assert SplitFrom(" " + tail, w) == [w] + SplitFrom(tail, []);
      SplitJoin(words[1..]);
      assert words == [w] + words[1..];
    }
  }

  lemma {:induction false} SplitStripLeft(s: string)
    ensures Split(StripLeft(s)) == Split(s)
    decreases |s|
  {
    if s != [] && IsSpace(s[0]) {
      SplitStripLeft(s[1..]);
      assert Split(s) == Flush([]) + Split(s[1..]);
    }
  }

  /** A trailing whitespace character only terminates the token under construction. */
  lemma {:induction false} SplitFromTrailingSpace(p: string, c: char, cur: string)
    requires IsSpace(c) && NoSpace(cur)
    ensures SplitFrom(p + [c], cur) == SplitFrom(p, cur)
    decreases |p|
  {
    if p == [] {
      assert [] + [c] == [c];
      assert [c][1..] == [];
    } else {
      assert (p + [c])[0] == p[0];
      assert (p + [c])[1..] == p[1..] + [c];
      if IsSpace(p[0]) {
        SplitFromTrailingSpace(p[1..], c, []);
      } else {
        assert NoSpace(cur + [p[0]]) by {
          forall i | 0 <= i < |cur + [p[0]]| ensures !IsSpace((cur + [p[0]])[i]) {
            if i < |cur| { assert (cur + [p[0]])[i] == cur[i]; }
          }
        }
        SplitFromTrailingSpace(p[1..], c, cur + [p[0]]);
      }
    }
  }

  lemma {:induction false} SplitStripRight(s: string)
    ensures Split(StripRight(s)) == Split(s)
    decreases |s|
  {
    if s != [] && IsSpace(s[|s| - 1]) {
      var p := s[..|s| - 1];
      assert s == p + [s[|s| - 1]];
      SplitFromTrailingSpace(p, s[|s| - 1], []);
      SplitStripRight(p);
    }
  }

  /** `request.strip().split()` is the same as `request.split()`. */
  lemma SplitIgnoresStrip(s: string)
    ensures Split(Strip(s)) == Split(s)
  {
    SplitStripRight(StripLeft(s));
    SplitStripLeft(s);
  }

  lemma {:induction false} StripLeftBlank(s: string)
    ensures StripLeft(s) == [] <==> IsBlank(s)
    decreases |s|
  {
    if s != [] && IsSpace(s[0]) {
      StripLeftBlank(s[1..]);
      assert IsBlank(s) <==> IsBlank(s[1..]) by {
        if IsBlank(s[1..]) {
          forall i | 0 <= i < |s| ensures IsSpace(s[i]) { if i > 0 { assert s[i] == s[1..][i - 1]; } }
        }
      }
    } else if s != [] {
      assert !IsSpace(s[0]);
    }
  }

  lemma {:induction false} StripRightEmpty(s: string)
    ensures StripRight(s) == [] <==> IsBlank(s)
    decreases |s|
  {
    if s != [] && IsSpace(s[|s| - 1]) {
      var p := s[..|s| - 1];
      StripRightEmpty(p);
      assert IsBlank(s) <==> IsBlank(p) by {
        if IsBlank(p) {
          forall i | 0 <= i < |s| ensures IsSpace(s[i]) { if i < |s| - 1 { assert s[i] == p[i]; } }
        }
      }
    } else if s != [] {
      assert !IsSpace(s[|s| - 1]);
    }
  }

  /** `strip()` yields the empty string exactly when the input is all whitespace. */
  lemma StripEmptyIffBlank(s: string)
    ensures Strip(s) == [] <==> IsBlank(s)
  {
    StripLeftBlank(s);
    StripRightEmpty(StripLeft(s));
    if StripLeft(s) != [] {
      // StripLeft leaves a non-whitespace first character, so the rest is not blank.
      assert !IsSpace(StripLeft(s)[0]) by { StripLeftFirst(s); }
    }
  }

  lemma {:induction false} StripLeftFirst(s: string)
    requires StripLeft(s) != []
    ensures !IsSpace(StripLeft(s)[0])
    decreases |s|
  {
    if s != [] && IsSpace(s[0]) { StripLeftFirst(s[1..]); }
  }

  /** Every maximal run of whitespace characters replaced by one space; `afterSpace` says
      whether the run under way has already been replaced. */
  function SqueezeFrom(s: string, afterSpace: bool): string
    decreases |s|
  {
    if s == [] then []
    else if IsSpace(s[0]) then (if afterSpace then [] else " ") + SqueezeFrom(s[1..], true)
    else [s[0]] + SqueezeFrom(s[1..], false)
  }

  function Squeeze(s: string): string {
    SqueezeFrom(s, false)
  }

  predicate NoTrailingSpace(s: string) {
    s == [] || !IsSpace(s[|s| - 1])
  }

  /** A string that does not end in whitespace and holds a character splits into at least
      one token. */
  lemma {:induction false} SplitFromNonEmpty(s: string, cur: string)
    requires NoSpace(cur) && s != [] && NoTrailingSpace(s)
    ensures SplitFrom(s, cur) != []
    decreases |s|
  {
    if IsSpace(s[0]) {
      SplitFromNonEmpty(s[1..], []);
    } else if |s| > 1 {
      assert NoSpace(cur + [s[0]]) by {
        forall i | 0 <= i < |cur + [s[0]]| ensures !IsSpace((cur + [s[0]])[i]) {
          if i < |cur| { assert (cur + [s[0]])[i] == cur[i]; }
        }
      }
      SplitFromNonEmpty(s[1..], cur + [s[0]]);
    }
  }

  /** Joining what `SplitFrom` yields is the token under construction followed by the rest
      with its whitespace runs squeezed; leading whitespace is dropped when no token is
      under way. */
  lemma {:induction false} JoinSplitFrom(s: string, cur: string)
    requires NoSpace(cur) && NoTrailingSpace(s)
    ensures Join(SplitFrom(s, cur)) == cur + SqueezeFrom(s, cur == [])
    decreases |s|
  {
    if s == [] {
      assert cur + [] == cur;
    } else if IsSpace(s[0]) {
      var rest := s[1..];
      assert rest != [] && rest[|rest| - 1] == s[|s| - 1];
      JoinSplitFrom(rest, []);
      SplitFromNonEmpty(rest, []);
      var tail := SplitFrom(rest, []);
      if cur != [] {
        assert Join([cur] + tail) == cur + " " + Join(tail) by {
          assert ([cur] + tail)[0] == cur && ([cur] + tail)[1..] == tail;
        }
        assert cur + " " + SqueezeFrom(rest, true) == cur + (" " + SqueezeFrom(rest, true));
      } else {
        assert [] + tail == tail;
      }
    } else {
      var cur' := cur + [s[0]];
      assert NoSpace(cur') by {
        forall i | 0 <= i < |cur'| ensures !IsSpace(cur'[i]) {
          if i < |cur| { assert cur'[i] == cur[i]; }
        }
      }
      if |s| > 1 {
        assert s[1..][|s| - 2] == s[|s| - 1];
      }
      JoinSplitFrom(s[1..], cur');
      assert cur' + SqueezeFrom(s[1..], false) == cur + ([s[0]] + SqueezeFrom(s[1..], false));
    }
  }

  lemma {:induction false} StripRightShape(s: string)
    ensures StripRight(s) <= s && NoTrailingSpace(StripRight(s))
    decreases |s|
  {
    if s != [] && IsSpace(s[|s| - 1]) {
      StripRightShape(s[..|s| - 1]);
    }
  }

  /** `" ".join(s.split())` is `s.strip()` with every run of whitespace squeezed to a
      single space: the only thing a stored value loses is the length and kind of the
      whitespace between its words. */
  lemma SplitJoinSqueezes(s: string)
    ensures Join(Split(s)) == Squeeze(Strip(s))
  {
    var t := Strip(s);
    SplitIgnoresStrip(s);
    StripRightShape(StripLeft(s));
    if t != [] {
      StripLeftFirst(s);
      assert t[0] == StripLeft(s)[0];
    }
    JoinSplitFrom(t, []);
    assert [] + SqueezeFrom(t, true) == SqueezeFrom(t, true);
  }

  /** The only whitespace character in a space-joined list of tokens is the space. */
  lemma {:induction false} JoinedSpaces(words: seq<string>)
    requires AllTokens(words)
    ensures forall i :: 0 <= i < |Join(words)| && IsSpace(Join(words)[i]) ==> Join(words)[i] == ' '
    decreases |words|
  {
    if |words| > 1 {
      JoinedSpaces(words[1..]);
      var w, tail := words[0], Join(words[1..]);
      assert Join(words) == w + " " + tail;
      forall i | 0 <= i < |Join(words)| && Join(words)[i] != ' ' ensures !IsSpace(Join(words)[i]) {
        if i < |w| {
          assert Join(words)[i] == w[i];
        } else {
          assert Join(words)[i] == tail[i - |w| - 1];
        }
      }
    } else if |words| == 1 {
      assert IsToken(words[0]);
    }
  }
}
