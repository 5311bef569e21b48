/**
 * `parse_pasted_stats`: pasted text is read as a JSON object, else as CSV-like
 * `key,value` lines, else as `key: value` lines. The JSON decoder is a parameter:
 * `decode` says whether the text is malformed JSON, JSON that is not an object, or an
 * object (of the caller's representation `J`).
 */
module PasteParser {
  import opened Wrappers
  import opened Text

  /** What `json.loads` makes of the text: an error, a non-object value, or an object. */
  datatype JsonParse<J> = DecodeError | NonObject | Object(obj: J)

  /** A parse result: the decoded JSON object, or string keys mapped to string values. */
  datatype Pasted<J> = FromJson(obj: J) | FromText(stats: map<string, string>)

  /** Neither starts nor ends with whitespace, as `str.strip()` leaves a string. */
  predicate Trimmed(s: string) {
    |s| > 0 ==> !IsSpace(s[0]) && !IsSpace(s[|s| - 1])
  }

  /**
   * The entry a line contributes to the CSV-like reading: its first two comma-separated
   * fields, stripped, when it has at least two.
   */
  function CsvEntry(line: string): (e: Option<(string, string)>)
    ensures e.Some? <==> ',' in line
    ensures e.Some? ==> ',' !in e.value.0 && ',' !in e.value.1
    ensures e.Some? ==> Trimmed(e.value.0) && Trimmed(e.value.1)
  {
    SplitPieces(line, ',');
    var parts := Split(line, ',');
    if |parts| >= 2 then
      StripKeepsOut(parts[0], ',');
      StripKeepsOut(parts[1], ',');
      Some((Strip(parts[0]), Strip(parts[1])))
    else None
  }

  /**
   * The entry a line contributes to the key/value reading: the text before and after
   * its first colon, stripped, when it has one.
   */
  function KeyValueEntry(line: string): (e: Option<(string, string)>)
    ensures e.Some? <==> ':' in line
    ensures e.Some? ==> ':' !in e.value.0
    ensures e.Some? ==> Trimmed(e.value.0) && Trimmed(e.value.1)
  {
    if ':' in line then
      var kv := SplitFirst(line, ':');
      StripKeepsOut(kv.0, ':');
      Some((Strip(kv.0), Strip(kv.1)))
    else None
  }

  /**
   * The dictionary the first `n` lines build when each line contributes `entry(line)`:
   * later lines overwrite earlier keys.
   */
  function Collect(entry: string -> Option<(string, string)>, lines: seq<string>, n: nat): map<string, string>
    requires n <= |lines|
  {
    if n == 0 then map[]
    else
      var m := Collect(entry, lines, n - 1);
      match entry(lines[n - 1])
      case None => m
      case Some(e) => m[e.0 := e.1]
  }

  /** Whether an entry has key `k`. */
  predicate HasKey(e: Option<(string, string)>, k: string) {
    e.Some? && e.value.0 == k
  }

  /** A key is in the dictionary exactly when some line contributes it. */
  lemma {:induction false} CollectKeys(entry: string -> Option<(string, string)>, lines: seq<string>, n: nat, k: string)
    requires n <= |lines|
    ensures k in Collect(entry, lines, n) <==> exists i :: 0 <= i < n && HasKey(entry(lines[i]), k)
  {
    if n > 0 {
      CollectKeys(entry, lines, n - 1, k);
      if HasKey(entry(lines[n - 1]), k) {
        assert k in Collect(entry, lines, n);
      }
    }
  }

  /** The value of a key is the one on the last line that contributes that key. */
  lemma {:induction false} LastWriteWins(entry: string -> Option<(string, string)>, lines: seq<string>, n: nat, i: nat)
    requires i < n <= |lines| && entry(lines[i]).Some?
    requires forall j :: i < j < n ==> !HasKey(entry(lines[j]), entry(lines[i]).value.0)
    ensures var e := entry(lines[i]).value;
      e.0 in Collect(entry, lines, n) && Collect(entry, lines, n)[e.0] == e.1
  {
    if n > i + 1 {
      LastWriteWins(entry, lines, n - 1, i);
      assert !HasKey(entry(lines[n - 1]), entry(lines[i]).value.0);
    }
  }

  /** Every key and value of the dictionary is the entry of some line. */
  lemma {:induction false} CollectFromLines(entry: string -> Option<(string, string)>, lines: seq<string>, n: nat, k: string)
    requires n <= |lines| && k in Collect(entry, lines, n)
    ensures exists i :: 0 <= i < n && entry(lines[i]) == Some((k, Collect(entry, lines, n)[k]))
  {
    var last := entry(lines[n - 1]);
    if last.Some? && last.value.0 == k {
      assert entry(lines[n - 1]) == Some((k, Collect(entry, lines, n)[k]));
    } else {
      CollectFromLines(entry, lines, n - 1, k);
    }
  }

  /** The CSV-like reading yields keys and values without surrounding whitespace. */
  lemma CsvStatsTrimmed(lines: seq<string>, k: string)
    requires k in Collect(CsvEntry, lines, |lines|)
    ensures Trimmed(k) && Trimmed(Collect(CsvEntry, lines, |lines|)[k])
  {
    CollectFromLines(CsvEntry, lines, |lines|, k);
  }

  /** The key/value reading yields keys and values without surrounding whitespace. */
  lemma KeyValueStatsTrimmed(lines: seq<string>, k: string)
    requires k in Collect(KeyValueEntry, lines, |lines|)
    ensures Trimmed(k) && Trimmed(Collect(KeyValueEntry, lines, |lines|)[k])
  {
    CollectFromLines(KeyValueEntry, lines, |lines|, k);
  }

  /**
   * The loop both text readings run: for each line, in order, write the key and value
   * `entry` finds on it, if any.
   */
  method CollectStats(entry: string -> Option<(string, string)>, lines: seq<string>) returns (stats: map<string, string>)
    ensures stats == Collect(entry, lines, |lines|)
  {
    stats := map[];
    var i := 0;
    while i < |lines|
      invariant 0 <= i <= |lines|
      invariant stats == Collect(entry, lines, i)
    {
      var e := entry(lines[i]);
      if e.Some? {
        stats := stats[e.value.0 := e.value.1];
      }
      i := i + 1;
    }
  }

  /** What `parse_pasted_stats` returns for `text`. */
  function PastedStats<J>(text: string, decode: string -> JsonParse<J>): (r: Option<Pasted<J>>)
    ensures r.Some? && r.value.FromText? ==> r.value.stats != map[]
  {
    var t := Strip(text);
    if t == [] then None
    else if decode(t).Object? then Some(FromJson(decode(t).obj))
    else
      var lines := Split(t, '\n');
      var csv := Collect(CsvEntry, lines, |lines|);
      if |lines| > 1 && csv != map[] then Some(FromText(csv))
      else
        var kv := Collect(KeyValueEntry, lines, |lines|);
        if kv != map[] then Some(FromText(kv)) else None
  }

  /**
   * `parse_pasted_stats`: strip the text; try JSON; with several lines try CSV; then
   * key/value; `None` when nothing was recognised.
   */
  method ParsePastedStats<J>(text: string, decode: string -> JsonParse<J>) returns (r: Option<Pasted<J>>)
    ensures r == PastedStats(text, decode)
  {
    var t := Strip(text);
    if t == [] {
      return None;
    }
    var data := decode(t);
    if data.Object? {
      return Some(FromJson(data.obj));
    }
    var lines := Split(t, '\n');
    if |lines| > 1 {
      var stats := CollectStats(CsvEntry, lines);
      if stats != map[] {
        return Some(FromText(stats));
      }
    }
    var stats := CollectStats(KeyValueEntry, lines);
    if stats != map[] {
      return Some(FromText(stats));
    }
    return None;
  }

  /** Blank text parses to nothing. */
  lemma BlankIsNone<J>(text: string, decode: string -> JsonParse<J>)
    requires AllSpace(text)
    ensures PastedStats(text, decode) == None
  {
  }

  /** Text that decodes to a JSON object is returned as that object, even an empty one. */
  lemma JsonObjectFirst<J>(text: string, decode: string -> JsonParse<J>)
    requires !AllSpace(text) && decode(Strip(text)).Object?
    ensures PastedStats(text, decode) == Some(FromJson(decode(Strip(text)).obj))
  {
  }

  /** Surrounding whitespace never changes the result. */
  lemma SurroundingSpaceIgnored<J>(w1: string, text: string, w2: string, decode: string -> JsonParse<J>)
    requires AllSpace(w1) && AllSpace(w2)
    ensures PastedStats(w1 + text + w2, decode) == PastedStats(text, decode)
  {
    StripIgnoresSurroundingSpace(w1, text, w2);
    assert AllSpace(w1 + text + w2) <==> AllSpace(text) by {
      assert Strip(w1 + text + w2) == Strip(text);
    }
  }

  /**
   * In text of several lines that is not a JSON object, one line with a comma makes
   * the result the CSV reading, whatever colons the lines hold.
   */
  lemma CommaLineSelectsCsv<J>(text: string, decode: string -> JsonParse<J>, i: nat)
    requires var t := Strip(text);
      t != [] && !decode(t).Object? && |Split(t, '\n')| > 1
      && i < |Split(t, '\n')| && ',' in Split(t, '\n')[i]
    ensures var lines := Split(Strip(text), '\n');
      PastedStats(text, decode) == Some(FromText(Collect(CsvEntry, lines, |lines|)))
  {
    var lines := Split(Strip(text), '\n');
    var e := CsvEntry(lines[i]).value;
    CollectKeys(CsvEntry, lines, |lines|, e.0);
    assert HasKey(CsvEntry(lines[i]), e.0);
  }

  /** Text of one line that is not a JSON object is read through the key/value loop. */
  lemma SingleLineReadsKeyValue<J>(text: string, decode: string -> JsonParse<J>)
    requires var t := Strip(text); t != [] && !decode(t).Object? && '\n' !in t
    ensures var t := Strip(text); var kv := Collect(KeyValueEntry, [t], 1);
      PastedStats(text, decode) == if kv == map[] then None else Some(FromText(kv))
  {
    var t := Strip(text);
    SplitPieces(t, '\n');
    assert Split(t, '\n') == [t];
  }

  /** One line with neither a JSON object, nor a colon, is not recognised at all. */
  lemma SingleLineWithoutColonIsNone<J>(text: string, decode: string -> JsonParse<J>)
    requires var t := Strip(text); t != [] && !decode(t).Object? && '\n' !in t && ':' !in t
    ensures PastedStats(text, decode) == None
  {
    var t := Strip(text);
    SingleLineReadsKeyValue(text, decode);
    assert KeyValueEntry([t][0]).None?;
  }

  /**
   * One line with a colon gives exactly one key, the text before the first colon,
   * whatever commas it holds: `serve: 0.65, first: 0.82` maps "serve" to "0.65, first: 0.82".
   */
  lemma SingleLineIsKeyValue<J>(text: string, decode: string -> JsonParse<J>)
    requires var t := Strip(text); t != [] && !decode(t).Object? && '\n' !in t && ':' in t
    ensures var kv := SplitFirst(Strip(text), ':');
      PastedStats(text, decode) == Some(FromText(map[Strip(kv.0) := Strip(kv.1)]))
  {
    var t := Strip(text);
    SingleLineReadsKeyValue(text, decode);
    var kv := SplitFirst(t, ':');
    var m := Collect(KeyValueEntry, [t], 1);
    assert KeyValueEntry([t][0]) == Some((Strip(kv.0), Strip(kv.1)));
    assert m == map[Strip(kv.0) := Strip(kv.1)];
    assert m != map[] by {
      assert Strip(kv.0) in m;
    }
  }
}
