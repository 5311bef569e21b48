/**
 * The pure helpers of the match detector: cleaning a player name taken from a URL,
 * recognising the tournament of a URL by its domain, and normalising a numeric
 * statistic by the name of its key.
 */
module MatchDetector {
  import opened Wrappers
  import opened Text
  import Reals

  /** `str.replace("-", " ").replace("_", " ")` on one character. */
  function SeparatorToSpace(c: char): char {
    if c == '-' || c == '_' then ' ' else c
  }

  /** Hyphens and underscores become spaces; every other character stays. */
  function ReplaceSeparators(s: string): (r: string)
    ensures |r| == |s|
    ensures forall i :: 0 <= i < |s| ==> r[i] == SeparatorToSpace(s[i])
  {
    seq(|s|, i requires 0 <= i < |s| => SeparatorToSpace(s[i]))
  }

  /** `str.capitalize()` over ASCII: the first letter upper case, the rest lower case. */
  function Capitalize(w: string): (r: string)
    requires |w| > 0
    ensures |r| == |w| && r[0] == UpperChar(w[0])
    ensures forall i :: 1 <= i < |w| ==> r[i] == LowerChar(w[i])
  {
    [UpperChar(w[0])] + Lower(w[1..])
  }

  /** A word longer than one character is capitalised, a one-character word upper-cased. */
  function CleanWord(w: string): (r: string)
    requires |w| > 0
    ensures |r| == |w| && r[0] == UpperChar(w[0])
    ensures |w| > 1 ==> forall i :: 1 <= i < |w| ==> r[i] == LowerChar(w[i])
  {
    if |w| > 1 then Capitalize(w) else Upper(w)
  }

  /** The cleaned form of each of the words. */
  function CleanWords(ws: seq<string>): (cs: seq<string>)
    requires forall i :: 0 <= i < |ws| ==> |ws[i]| > 0
    ensures |cs| == |ws|
    ensures forall i :: 0 <= i < |ws| ==> cs[i] == CleanWord(ws[i])
  {
    seq(|ws|, i requires 0 <= i < |ws| => CleanWord(ws[i]))
  }

  /** The name `_clean_player_name` returns: the cleaned words joined by single spaces. */
  function CleanedName(name: string): string {
    JoinChar(CleanWords(Words(ReplaceSeparators(name))), ' ')
  }

  /**
   * `_clean_player_name`: separators to spaces, split into words, clean each word,
   * join with single spaces.
   */
  method CleanPlayerName(name: string) returns (cleanedName: string)
    ensures cleanedName == CleanedName(name)
  {
    var spaced := ReplaceSeparators(name);
    var words := Words(spaced);
    var cleaned: seq<string> := [];
    var i := 0;
    while i < |words|
      invariant 0 <= i <= |words|
      invariant cleaned == CleanWords(words[..i])
    {
      var word := words[i];
      if |word| > 1 {
        cleaned := cleaned + [Capitalize(word)];
      } else {
        cleaned := cleaned + [Upper(word)];
      }
      i := i + 1;
    }
    assert words[..i] == words;
    cleanedName := JoinChar(cleaned, ' ');
  }

  lemma CaseKeepsSeparators(c: char)
    ensures (UpperChar(c) == '-' || LowerChar(c) == '-') ==> c == '-'
    ensures (UpperChar(c) == '_' || LowerChar(c) == '_') ==> c == '_'
    ensures UpperChar(UpperChar(c)) == UpperChar(c) && LowerChar(LowerChar(c)) == LowerChar(c)
    ensures NoSpace([c]) ==> NoSpace([UpperChar(c)]) && NoSpace([LowerChar(c)])
  {
  }

  /** Cleaning keeps a word non-blank and free of separators. */
  lemma CleanWordShape(w: string)
    requires |w| > 0 && NoSpace(w) && '-' !in w && '_' !in w
    ensures NoSpace(CleanWord(w)) && '-' !in CleanWord(w) && '_' !in CleanWord(w)
  {
    var r := CleanWord(w);
    forall i | 0 <= i < |r|
      ensures !IsSpace(r[i]) && r[i] != '-' && r[i] != '_'
    {
      CaseKeepsSeparators(w[i]);
      assert r[i] == UpperChar(w[i]) || r[i] == LowerChar(w[i]);
    }
  }

  /** Cleaning a cleaned word changes nothing. */
  lemma CleanWordIdempotent(w: string)
    requires |w| > 0
    ensures CleanWord(CleanWord(w)) == CleanWord(w)
  {
    var r := CleanWord(w);
    var rr := CleanWord(r);
    forall i | 0 <= i < |w|
      ensures rr[i] == r[i]
    {
      CaseKeepsSeparators(w[i]);
    }
  }

  /** The words of the spaced name carry no separators. */
  lemma WordsWithoutSeparators(name: string)
    ensures var ws := Words(ReplaceSeparators(name));
      forall i :: 0 <= i < |ws| ==> '-' !in ws[i] && '_' !in ws[i]
  {
    var s := ReplaceSeparators(name);
    assert '-' !in s && '_' !in s by {
      forall i | 0 <= i < |s| ensures s[i] != '-' && s[i] != '_' { }
    }
    WordsKeepOut(s, [], '-');
    WordsKeepOut(s, [], '_');
    assert Words(s) == WordsFrom(s, []);
  }

  /** No word of `ws` holds `c`. */
  predicate NoneHolds(ws: seq<string>, c: char) {
    forall i :: 0 <= i < |ws| ==> c !in ws[i]
  }

  /** A character absent from the text is absent from every word of it. */
  lemma {:induction false} WordsKeepOut(s: string, cur: string, c: char)
    requires NoSpace(cur) && c !in s && c !in cur
    ensures NoneHolds(WordsFrom(s, cur), c)
    decreases |s|
  {
    if |s| > 0 {
      assert c !in s[1..] by {
        forall i | 0 <= i < |s[1..]| ensures s[1..][i] != c { assert s[1..][i] == s[i + 1]; }
      }
      if IsSpace(s[0]) {
        WordsKeepOut(s[1..], [], c);
        var rest := WordsFrom(s[1..], []);
        if cur != [] {
          var ws := [cur] + rest;
          assert WordsFrom(s, cur) == ws;
          forall i | 0 <= i < |ws| ensures c !in ws[i] {
            if i > 0 { assert ws[i] == rest[i - 1]; } else { assert ws[i] == cur; }
          }
        } else {
          assert WordsFrom(s, cur) == rest;
        }
      } else {
        assert c !in cur + [s[0]] by {
          assert s[0] != c;
          forall i | 0 <= i < |cur + [s[0]]| ensures (cur + [s[0]])[i] != c {
            if i < |cur| { assert (cur + [s[0]])[i] == cur[i]; }
          }
        }
        WordsKeepOut(s[1..], cur + [s[0]], c);
        assert WordsFrom(s, cur) == WordsFrom(s[1..], cur + [s[0]]);
      }
    }
  }

  /** The cleaned words are non-empty, blank-free and separator-free. */
  lemma CleanedWordsShape(name: string)
    ensures var cs := CleanWords(Words(ReplaceSeparators(name)));
      forall i :: 0 <= i < |cs| ==> |cs[i]| > 0 && NoSpace(cs[i]) && '-' !in cs[i] && '_' !in cs[i]
  {
    var ws := Words(ReplaceSeparators(name));
    WordsWithoutSeparators(name);
    forall i | 0 <= i < |ws|
      ensures NoSpace(CleanWord(ws[i])) && '-' !in CleanWord(ws[i]) && '_' !in CleanWord(ws[i])
    {
      CleanWordShape(ws[i]);
    }
  }

  /** Joined words keep out every character the words and the separator keep out. */
  lemma {:induction false} JoinKeepsOut(ws: seq<string>, c: char)
    requires c != ' ' && forall i :: 0 <= i < |ws| ==> c !in ws[i]
    ensures c !in JoinChar(ws, ' ')
    decreases |ws|
  {
    if |ws| > 1 {
      JoinKeepsOut(ws[1..], c);
      assert JoinChar(ws, ' ') == ws[0] + [' '] + JoinChar(ws[1..], ' ');
    }
  }

  /**
   * A cleaned name has no hyphen or underscore, does not start or end with a space,
   * never holds two spaces in a row, and its only whitespace is the plain space.
   */
  lemma CleanedNameShape(name: string)
    ensures var r := CleanedName(name);
      '-' !in r && '_' !in r
      && (|r| > 0 ==> !IsSpace(r[0]) && !IsSpace(r[|r| - 1]))
      && (forall i :: 0 <= i < |r| - 1 ==> !(IsSpace(r[i]) && IsSpace(r[i + 1])))
      && (forall i :: 0 <= i < |r| ==> IsSpace(r[i]) ==> r[i] == ' ')
  {
    var cs := CleanWords(Words(ReplaceSeparators(name)));
    CleanedWordsShape(name);
    JoinKeepsOut(cs, '-');
    JoinKeepsOut(cs, '_');
    JoinSpaceShape(cs);
  }

  /** Cleaning a cleaned name gives it back unchanged. */
  lemma CleanedNameIdempotent(name: string)
    ensures CleanedName(CleanedName(name)) == CleanedName(name)
  {
    var cs := CleanWords(Words(ReplaceSeparators(name)));
    var r := CleanedName(name);
    CleanedNameShape(name);
    CleanedWordsShape(name);
    assert ReplaceSeparators(r) == r;
    WordsOfJoin(cs);
    forall i | 0 <= i < |cs|
      ensures CleanWord(cs[i]) == cs[i]
    {
      CleanWordIdempotent(Words(ReplaceSeparators(name))[i]);
    }
    assert CleanWords(cs) == cs;
  }

  /** A tournament entry: its key, its display name and the domain that identifies it. */
  datatype Tournament = Tournament(tournamentId: string, tournamentName: string, domain: string)

  /** The tournaments in declaration order. */
  const TOURNAMENTS: seq<Tournament> := [
    Tournament("ausopen", "Australian Open", "ausopen.com"),
    Tournament("wimbledon", "Wimbledon", "wimbledon.com"),
    Tournament("usopen", "US Open", "usopen.com"),
    Tournament("rolandgarros", "Roland Garros", "rolandgarros.com"),
    Tournament("atptour", "ATP Tour", "atptour.com"),
    Tournament("wtatour", "WTA Tour", "wtatour.com")
  ]

  /** Whether the lower-cased URL holds the domain of tournament `i`. */
  predicate DomainIn(urlLower: string, i: nat)
    requires i < |TOURNAMENTS|
  {
    Contains(urlLower, TOURNAMENTS[i].domain)
  }

  /** The first tournament from position `k` on whose domain the URL holds. */
  function FirstTournamentFrom(urlLower: string, k: nat): (r: Option<Tournament>)
    requires k <= |TOURNAMENTS|
    ensures r.None? <==> forall i :: k <= i < |TOURNAMENTS| ==> !DomainIn(urlLower, i)
    ensures r.Some? ==>
      (exists i :: k <= i < |TOURNAMENTS| && r.value == TOURNAMENTS[i]
        && DomainIn(urlLower, i) && forall j :: k <= j < i ==> !DomainIn(urlLower, j))
    decreases |TOURNAMENTS| - k
  {
    if k == |TOURNAMENTS| then None
    else if DomainIn(urlLower, k) then Some(TOURNAMENTS[k])
    else FirstTournamentFrom(urlLower, k + 1)
  }

  /**
   * `identify_tournament`: lower-case the URL and return the first tournament, in
   * declaration order, whose domain it contains; `None` when it contains none.
   */
  method IdentifyTournament(url: string) returns (r: Option<Tournament>)
    ensures r == FirstTournamentFrom(Lower(url), 0)
    ensures r.None? <==> forall i :: 0 <= i < |TOURNAMENTS| ==> !DomainIn(Lower(url), i)
  {
    var urlLower := Lower(url);
    var k := 0;
    while k < |TOURNAMENTS|
      invariant 0 <= k <= |TOURNAMENTS|
      invariant FirstTournamentFrom(urlLower, k) == FirstTournamentFrom(urlLower, 0)
    {
      var pattern := TOURNAMENTS[k];
      if Contains(urlLower, pattern.domain) {
        return Some(pattern);
      }
      k := k + 1;
    }
    return None;
  }

  /**
   * An ausopen.com URL also contains "usopen.com", yet it is the Australian Open,
   * because that entry is declared first.
   */
  lemma AustralianOpenShadowsUsOpen(urlLower: string)
    requires Contains(urlLower, "ausopen.com")
    ensures DomainIn(urlLower, 2)
    ensures FirstTournamentFrom(urlLower, 0) == Some(TOURNAMENTS[0])
  {
    assert "ausopen.com"[1..1 + |"usopen.com"|] == "usopen.com";
    ContainsAt("ausopen.com", "usopen.com", 1);
    ContainsTrans(urlLower, "ausopen.com", "usopen.com");
  }

  /** The result of `normalize_stat_value` for a numeric value. */
  datatype Normalized = Fraction(fraction: real) | Whole(count: int) | Unchanged(value: real)

  /** `int(x)` on a float: truncation toward zero. */
  function TruncateTowardZero(x: real): (n: int)
    ensures x >= 0.0 ==> 0 <= n && n as real <= x < n as real + 1.0
    ensures x < 0.0 ==> n <= 0 && n as real - 1.0 < x <= n as real
  {
    if x >= 0.0 then x.Floor else -((-x).Floor)
  }

  /** A key naming a percentage. */
  predicate IsPercentKey(keyLower: string) {
    Contains(keyLower, "pct") || Contains(keyLower, "percent")
  }

  /** A key naming a count. */
  predicate IsCountKey(keyLower: string) {
    Contains(keyLower, "count") || Contains(keyLower, "aces") || Contains(keyLower, "fault")
    || Contains(keyLower, "break") || Contains(keyLower, "winner")
  }

  /**
   * `normalize_stat_value` for a numeric value: percentages become fractions in
   * [0, 1], counts are truncated toward zero, anything else is unchanged.
   */
  function NormalizeStatValue(key: string, value: real): (r: Normalized)
    ensures r.Fraction? <==> IsPercentKey(Lower(key))
    ensures r.Whole? <==> !IsPercentKey(Lower(key)) && IsCountKey(Lower(key))
    ensures r.Fraction? ==> 0.0 <= r.fraction <= 1.0
    ensures r.Fraction? && 1.0 < value <= 100.0 ==> r.fraction * 100.0 == value
    ensures r.Fraction? && value > 100.0 ==> r.fraction == 1.0
    ensures r.Fraction? && value <= 0.0 ==> r.fraction == 0.0
    ensures r.Fraction? && 0.0 <= value <= 1.0 ==> r.fraction == value
    ensures r.Whole? ==> r.count == TruncateTowardZero(value)
    ensures r.Unchanged? ==> r.value == value
  {
    var keyLower := Lower(key);
    if IsPercentKey(keyLower) then
      var scaled := if value > 1.0 then value / 100.0 else value;
      Fraction(Reals.Clamp(scaled, 0.0, 1.0))
    else if IsCountKey(keyLower) then
      Whole(TruncateTowardZero(value))
    else
      Unchanged(value)
  }

  /** A fraction is a fixed point: normalising a normalised percentage changes nothing. */
  lemma PercentIdempotent(key: string, value: real)
    requires IsPercentKey(Lower(key))
    ensures NormalizeStatValue(key, NormalizeStatValue(key, value).fraction)
      == NormalizeStatValue(key, value)
  {
  }

  /** A whole count is a fixed point of count normalisation. */
  lemma CountIdempotent(key: string, value: real)
    requires !IsPercentKey(Lower(key)) && IsCountKey(Lower(key))
    ensures NormalizeStatValue(key, NormalizeStatValue(key, value).count as real)
      == NormalizeStatValue(key, value)
  {
  }

  /** A percentage key turns 65 into 0.65; a count key truncates 5.7 to 5 and -2.5 to -2. */
  lemma NormalizeExamples(pctKey: string, acesKey: string, v1: real, v2: real, v3: real)
    requires pctKey == "first_serve_pct" && acesKey == "aces" && v1 == 65.0 && v2 == 5.7 && v3 == -2.5
    ensures NormalizeStatValue(pctKey, v1) == Fraction(0.65)
    ensures NormalizeStatValue(acesKey, v2) == Whole(5)
    ensures NormalizeStatValue(acesKey, v3) == Whole(-2)
  {
    assert Lower(pctKey) == pctKey;
    assert Lower(acesKey) == acesKey;
    ContainsAt(pctKey, "pct", 12);
    ContainsAt(acesKey, "aces", 0);
    assert !IsPercentKey(acesKey) by {
      ContainsNeedsRoom(acesKey, "percent");
      ContainsNeedsRoom(acesKey[2..], "pct");
      assert acesKey[0] == 'a' && acesKey[1] == 'c' && "pct"[0] == 'p';
      assert acesKey[1..][0] == 'c';
      assert !("pct" <= acesKey) && !("pct" <= acesKey[1..]);
      assert acesKey[1..][1..] == acesKey[2..];
    }
  }
}
