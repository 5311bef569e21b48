/**
 * The few pieces of Python's `str` behaviour that the input-side code relies on:
 * `strip()`, `split(sep)`, `split()` on whitespace, `sep.join(...)`, substring
 * tests and ASCII case mapping.
 */
module Text {

  /** The characters Python's `str.isspace()` reports (and so `strip()`/`split()` use). */
  predicate IsSpace(c: char) {
    c == ' ' || ('\U{0009}' <= c <= '\U{000D}') || ('\U{001C}' <= c <= '\U{001F}')
    || c == '\U{0085}' || c == '\U{00A0}' || c == '\U{1680}' || ('\U{2000}' <= c <= '\U{200A}')
    || c == '\U{2028}' || c == '\U{2029}' || c == '\U{202F}' || c == '\U{205F}' || c == '\U{3000}'
  }

  predicate AllSpace(s: string) {
    forall i :: 0 <= i < |s| ==> IsSpace(s[i])
  }

  predicate NoSpace(s: string) {
    forall i :: 0 <= i < |s| ==> !IsSpace(s[i])
  }

  /** `s.lstrip()` */
  function TrimStart(s: string): (r: string)
    ensures |r| <= |s| && r == s[|s| - |r|..]
    ensures |r| > 0 ==> !IsSpace(r[0])
    ensures AllSpace(s[..|s| - |r|])
  {
    if |s| > 0 && IsSpace(s[0]) then
      var r := TrimStart(s[1..]);
      TrimStartStep(s, r);
      r
    else s
  }

  /** What `lstrip()` keeps of the rest of `s` after a leading space, it keeps of `s`. */
  lemma TrimStartStep(s: string, r: string)
    requires |s| > 0 && IsSpace(s[0])
    requires |r| <= |s[1..]| && r == s[1..][|s[1..]| - |r|..] && AllSpace(s[1..][..|s[1..]| - |r|])
    ensures |r| <= |s| && r == s[|s| - |r|..] && AllSpace(s[..|s| - |r|])
  {
    assert s[1..][|s[1..]| - |r|..] == s[|s| - |r|..];
    assert s[..|s| - |r|] == [s[0]] + s[1..][..|s[1..]| - |r|];
  }

  /** `s.rstrip()` */
  function TrimEnd(s: string): (r: string)
    ensures |r| <= |s| && r == s[..|r|]
    ensures |r| > 0 ==> !IsSpace(r[|r| - 1])
    ensures AllSpace(s[|r|..])
  {
    if |s| > 0 && IsSpace(s[|s| - 1]) then
      var r := TrimEnd(s[..|s| - 1]);
      assert s[|r|..] == s[..|s| - 1][|r|..] + [s[|s| - 1]];
      r
    else s
  }

  /** `s.strip()`: a contiguous piece of `s` that neither starts nor ends with whitespace. */
  function Strip(s: string): (r: string)
    ensures |r| <= |s|
    ensures |r| > 0 ==> !IsSpace(r[0]) && !IsSpace(r[|r| - 1])
    ensures r == [] <==> AllSpace(s)
  {
    var t := TrimStart(s);
    var r := TrimEnd(t);
    assert r == [] ==> AllSpace(s) by {
      if r == [] {
        assert s == s[..|s| - |t|] + t;
      }
    }
    r
  }

  lemma {:induction false} TrimStartSpacePrefix(w: string, x: string)
    requires AllSpace(w)
    ensures TrimStart(w + x) == TrimStart(x)
    decreases |w|
  {
    if |w| > 0 {
      assert (w + x)[1..] == w[1..] + x;
      TrimStartSpacePrefix(w[1..], x);
    } else {
      assert w + x == x;
    }
  }

  lemma {:induction false} TrimEndSpaceSuffix(x: string, w: string)
    requires AllSpace(w)
    ensures TrimEnd(x + w) == TrimEnd(x)
    decreases |w|
  {
    if |w| > 0 {
      assert (x + w)[..|x + w| - 1] == x + w[..|w| - 1];
      TrimEndSpaceSuffix(x, w[..|w| - 1]);
    } else {
      assert x + w == x;
    }
  }

  lemma {:induction false} TrimStartAppend(x: string, w: string)
    requires AllSpace(w)
    ensures TrimStart(x + w) == (if AllSpace(x) then [] else TrimStart(x) + w)
    decreases |x|
  {
    if |x| == 0 {
      assert x + w == w;
      TrimStartSpacePrefix(w, []);
      assert w + [] == w;
    } else if IsSpace(x[0]) {
      assert (x + w)[1..] == x[1..] + w;
      TrimStartAppend(x[1..], w);
      assert AllSpace(x) <==> AllSpace(x[1..]) by {
        if AllSpace(x[1..]) {
          forall i | 0 <= i < |x| ensures IsSpace(x[i]) { if i > 0 { assert x[i] == x[1..][i - 1]; } }
        }
        if AllSpace(x) {
          forall i | 0 <= i < |x[1..]| ensures IsSpace(x[1..][i]) { assert x[1..][i] == x[i + 1]; }
        }
      }
    } else {
      assert !AllSpace(x) by { assert !IsSpace(x[0]); }
    }
  }

  /** Whitespace around a string never changes what `strip()` returns. */
  lemma StripIgnoresSurroundingSpace(w1: string, t: string, w2: string)
    requires AllSpace(w1) && AllSpace(w2)
    ensures Strip(w1 + t + w2) == Strip(t)
  {
    assert w1 + t + w2 == w1 + (t + w2);
    TrimStartSpacePrefix(w1, t + w2);
    TrimStartAppend(t, w2);
    if AllSpace(t) {
      assert TrimStart(t) == [];
    } else {
      TrimEndSpaceSuffix(TrimStart(t), w2);
    }
  }

  /** Stripping only removes characters: what is not in `s` is not in `s.strip()`. */
  lemma StripKeepsOut(s: string, c: char)
    requires c !in s
    ensures c !in Strip(s)
  {
    var t := TrimStart(s);
    SliceKeepsOut(s, |s| - |t|, c);
    var r := TrimEnd(t);
    PrefixKeepsOut(t, |r|, c);
  }

  lemma SliceKeepsOut(s: string, k: nat, c: char)
    requires k <= |s| && c !in s
    ensures c !in s[k..]
  {
    forall i | 0 <= i < |s| - k ensures s[k..][i] != c {
      assert s[k..][i] == s[k + i];
    }
  }

  lemma PrefixKeepsOut(s: string, k: nat, c: char)
    requires k <= |s| && c !in s
    ensures c !in s[..k]
  {
    forall i | 0 <= i < k ensures s[..k][i] != c {
      assert s[..k][i] == s[i];
    }
  }

  /** `s.split(sep)` for a one-character separator: always at least one piece. */
  function Split(s: string, sep: char): (r: seq<string>)
    ensures |r| >= 1
    ensures forall i :: 0 <= i < |r| ==> sep !in r[i]
    decreases |s|
  {
    if |s| == 0 then [""]
    else if s[0] == sep then [""] + Split(s[1..], sep)
    else
      var t := Split(s[1..], sep);
      [[s[0]] + t[0]] + t[1..]
  }

  /** `sep.join(parts)` for a one-character separator. */
  function JoinChar(parts: seq<string>, sep: char): string {
    if |parts| == 0 then ""
    else if |parts| == 1 then parts[0]
    else parts[0] + [sep] + JoinChar(parts[1..], sep)
  }

  /** Splitting and joining on the same separator gives the string back. */
  lemma {:induction false} SplitJoin(s: string, sep: char)
    ensures JoinChar(Split(s, sep), sep) == s
    decreases |s|
  {
    if |s| == 0 {
    } else if s[0] == sep {
      SplitJoin(s[1..], sep);
      var t := Split(s[1..], sep);
      assert ([""] + t)[1..] == t;
      assert s == [sep] + s[1..];
    } else {
      SplitJoin(s[1..], sep);
      var t := Split(s[1..], sep);
      var r := [[s[0]] + t[0]] + t[1..];
      if |t| == 1 {
        assert JoinChar(t, sep) == t[0];
        assert s == [s[0]] + s[1..];
      } else {
        assert r[1..] == t[1..];
        assert JoinChar(t, sep) == t[0] + [sep] + JoinChar(t[1..], sep);
        assert s == [s[0]] + s[1..];
      }
    }
  }

  /** A separator in the string yields at least two pieces; none yields the string itself. */
  lemma {:induction false} SplitPieces(s: string, sep: char)
    ensures sep in s ==> |Split(s, sep)| >= 2
    ensures sep !in s ==> Split(s, sep) == [s]
    decreases |s|
  {
    if |s| > 0 && s[0] != sep {
      SplitPieces(s[1..], sep);
      assert sep in s <==> sep in s[1..] by {
        if sep in s {
          var i :| 0 <= i < |s| && s[i] == sep;
          assert s[1..][i - 1] == sep;
        }
        if sep in s[1..] {
          var i :| 0 <= i < |s[1..]| && s[1..][i] == sep;
          assert s[i + 1] == sep;
        }
      }
      if sep !in s { assert [s[0]] + s[1..] == s; }
    }
  }

  /** `s.split(sep, 1)` when `sep in s`: the text before and after the first separator. */
  function SplitFirst(s: string, sep: char): (r: (string, string))
    requires sep in s
    ensures sep !in r.0 && s == r.0 + [sep] + r.1
    decreases |s|
  {
    if s[0] == sep then ("", s[1..])
    else
      assert sep in s[1..] by {
        var i :| 0 <= i < |s| && s[i] == sep;
        assert s[1..][i - 1] == sep;
      }
      var t := SplitFirst(s[1..], sep);
      ([s[0]] + t.0, t.1)
  }

  /** The words `str.split()` finds, with `cur` the word being read. */
  function WordsFrom(s: string, cur: string): (r: seq<string>)
    requires NoSpace(cur)
    ensures forall i :: 0 <= i < |r| ==> |r[i]| > 0 && NoSpace(r[i])
    decreases |s|
  {
    if |s| == 0 then (if cur == [] then [] else [cur])
    else if IsSpace(s[0]) then
      (if cur == [] then WordsFrom(s[1..], []) else [cur] + WordsFrom(s[1..], []))
    else WordsFrom(s[1..], cur + [s[0]])
  }

  /** `s.split()`: the maximal runs of non-whitespace characters, in order. */
  function Words(s: string): (r: seq<string>)
    ensures forall i :: 0 <= i < |r| ==> |r[i]| > 0 && NoSpace(r[i])
  {
    WordsFrom(s, [])
  }

  lemma {:induction false} WordsFromWord(w: string, rest: string, cur: string)
    requires NoSpace(cur) && NoSpace(w)
    ensures WordsFrom(w + rest, cur) == WordsFrom(rest, cur + w)
    decreases |w|
  {
    if |w| > 0 {
      assert (w + rest)[0] == w[0];
      assert (w + rest)[1..] == w[1..] + rest;
      WordsFromWord(w[1..], rest, cur + [w[0]]);
      assert cur + [w[0]] + w[1..] == cur + w;
    } else {
      assert w + rest == rest;
      assert cur + w == cur;
    }
  }

  /** Joining words with single spaces and splitting on whitespace gives the words back. */
  lemma {:induction false} WordsOfJoin(ws: seq<string>)
    requires forall i :: 0 <= i < |ws| ==> |ws[i]| > 0 && NoSpace(ws[i])
    ensures Words(JoinChar(ws, ' ')) == ws
    decreases |ws|
  {
    if |ws| == 1 {
      WordsFromWord(ws[0], "", []);
      assert ws[0] + "" == ws[0];
      assert [] + ws[0] == ws[0];
    } else if |ws| > 1 {
      var tail := JoinChar(ws[1..], ' ');
      WordsOfJoin(ws[1..]);
      assert JoinChar(ws, ' ') == ws[0] + ([' '] + tail);
      WordsFromWord(ws[0], [' '] + tail, []);
      assert [] + ws[0] == ws[0];
      assert ([' '] + tail)[1..] == tail;
      assert ws == [ws[0]] + ws[1..];
    }
  }

  /** Joined with single spaces, non-empty words give no leading/trailing or doubled space. */
  lemma {:induction false} JoinSpaceShape(ws: seq<string>)
    requires forall i :: 0 <= i < |ws| ==> |ws[i]| > 0 && NoSpace(ws[i])
    ensures var j := JoinChar(ws, ' ');
      (|j| > 0 ==> !IsSpace(j[0]) && !IsSpace(j[|j| - 1]))
      && (forall i :: 0 <= i < |j| - 1 ==> !(IsSpace(j[i]) && IsSpace(j[i + 1])))
      && (forall i :: 0 <= i < |j| ==> IsSpace(j[i]) ==> j[i] == ' ')
    decreases |ws|
  {
    if |ws| > 1 {
      JoinSpaceShape(ws[1..]);
      var t := JoinChar(ws[1..], ' ');
      var j := JoinChar(ws, ' ');
      assert j == ws[0] + [' '] + t;
      assert |t| > 0 by { assert |ws[1..][0]| > 0; JoinNonEmpty(ws[1..]); }
      forall i | 0 <= i < |j| - 1 ensures !(IsSpace(j[i]) && IsSpace(j[i + 1])) {
        if i < |ws[0]| - 1 {
          assert j[i] == ws[0][i];
        } else if i == |ws[0]| - 1 {
          assert j[i] == ws[0][i];
        } else if i == |ws[0]| {
          assert j[i + 1] == t[0];
        } else {
          assert j[i] == t[i - |ws[0]| - 1] && j[i + 1] == t[i + 1 - |ws[0]| - 1];
        }
      }
      forall i | 0 <= i < |j| ensures IsSpace(j[i]) ==> j[i] == ' ' {
        if i < |ws[0]| { assert j[i] == ws[0][i]; }
        else if i > |ws[0]| { assert j[i] == t[i - |ws[0]| - 1]; }
      }
      assert j[|j| - 1] == t[|t| - 1];
    } else if |ws| == 1 {
      assert JoinChar(ws, ' ') == ws[0];
    }
  }

  lemma {:induction false} JoinNonEmpty(ws: seq<string>)
    requires |ws| > 0 && |ws[0]| > 0
    ensures |JoinChar(ws, ' ')| > 0
  {
    if |ws| > 1 { assert JoinChar(ws, ' ') == ws[0] + [' '] + JoinChar(ws[1..], ' '); }
  }

  /** `needle in hay` for strings: some position of `hay` starts a copy of `needle`. */
  predicate Contains(hay: string, needle: string)
    decreases |hay|
  {
    needle <= hay || (|hay| > 0 && Contains(hay[1..], needle))
  }

  /** A needle longer than the haystack is never in it. */
  lemma {:induction false} ContainsNeedsRoom(hay: string, needle: string)
    requires |needle| > |hay|
    ensures !Contains(hay, needle)
    decreases |hay|
  {
    if |hay| > 0 {
      ContainsNeedsRoom(hay[1..], needle);
    }
  }

  /** A copy of `needle` at position `i` makes `needle` a substring. */
  lemma {:induction false} ContainsAt(hay: string, needle: string, i: nat)
    requires i + |needle| <= |hay| && hay[i..i + |needle|] == needle
    ensures Contains(hay, needle)
    decreases i
  {
    if i > 0 {
      assert hay[1..][i - 1..i - 1 + |needle|] == hay[i..i + |needle|];
      ContainsAt(hay[1..], needle, i - 1);
    }
  }

  /** Being a substring is transitive: a string holding `mid` holds every substring of `mid`. */
  lemma {:induction false} ContainsTrans(hay: string, mid: string, needle: string)
    requires Contains(hay, mid) && Contains(mid, needle)
    ensures Contains(hay, needle)
    decreases |hay|
  {
    if mid <= hay {
      var i := ContainsIndex(mid, needle);
      assert hay[i..i + |needle|] == mid[i..i + |needle|];
      ContainsAt(hay, needle, i);
    } else {
      ContainsTrans(hay[1..], mid, needle);
    }
  }

  lemma {:induction false} ContainsIndex(hay: string, needle: string) returns (i: nat)
    requires Contains(hay, needle)
    ensures i + |needle| <= |hay| && hay[i..i + |needle|] == needle
    decreases |hay|
  {
    if needle <= hay {
      i := 0;
    } else {
      var j := ContainsIndex(hay[1..], needle);
      i := j + 1;
      assert hay[i..i + |needle|] == hay[1..][j..j + |needle|];
    }
  }

  function LowerChar(c: char): (r: char)
    ensures IsSpace(r) <==> IsSpace(c)
  {
    if 'A' <= c <= 'Z' then (c as int + 32) as char else c
  }

  function UpperChar(c: char): (r: char)
    ensures IsSpace(r) <==> IsSpace(c)
  {
    if 'a' <= c <= 'z' then (c as int - 32) as char else c
  }

  /** `s.lower()` over ASCII letters. */
  function Lower(s: string): (r: string)
    ensures |r| == |s|
    ensures forall i :: 0 <= i < |s| ==> r[i] == LowerChar(s[i])
  {
    seq(|s|, i requires 0 <= i < |s| => LowerChar(s[i]))
  }

  /** `s.upper()` over ASCII letters. */
  function Upper(s: string): (r: string)
    ensures |r| == |s|
    ensures forall i :: 0 <= i < |s| ==> r[i] == UpperChar(s[i])
  {
    seq(|s|, i requires 0 <= i < |s| => UpperChar(s[i]))
  }
}
