/**
 * Reading back the comma-separated text the dashboard exports. The export
 * wraps some cells in double quotes and escapes nothing, so the matching
 * reader splits on a separator only outside quotes. `Clean` says which cells
 * survive that: quotes balanced and no separator outside them.
 */
module CsvText {
  import opened JsText

  function Quote(s: string): string {
    "\"" + s + "\""
  }

  /** Splits `s` at each `sep` met outside double quotes; `cur` is the cell read so far. */
  function SplitFrom(s: string, sep: char, inQuote: bool, cur: string): seq<string>
    decreases |s|
  {
    if s == [] then [cur]
    else if s[0] == '"' then SplitFrom(s[1..], sep, !inQuote, cur + [s[0]])
    else if s[0] == sep && !inQuote then [cur] + SplitFrom(s[1..], sep, false, [])
    else SplitFrom(s[1..], sep, inQuote, cur + [s[0]])
  }

  function SplitOutsideQuotes(s: string, sep: char): seq<string> {
    SplitFrom(s, sep, false, [])
  }

  /** Scanning `s` from quote state `inQuote` meets no `sep` outside quotes and ends outside quotes. */
  predicate Clean(s: string, sep: char, inQuote: bool)
    decreases |s|
  {
    if s == [] then !inQuote
    else if s[0] == '"' then Clean(s[1..], sep, !inQuote)
    else if s[0] == sep && !inQuote then false
    else Clean(s[1..], sep, inQuote)
  }

  /** A clean piece is read whole into the current cell. */
  lemma {:induction false} CleanPrefix(c: string, rest: string, sep: char, inQuote: bool, cur: string)
    requires Clean(c, sep, inQuote)
    ensures SplitFrom(c + rest, sep, inQuote, cur) == SplitFrom(rest, sep, false, cur + c)
    decreases |c|
  {
    if c == [] {
      assert c + rest == rest;
      assert cur + c == cur;
    } else {
      assert (c + rest)[0] == c[0];
      assert (c + rest)[1..] == c[1..] + rest;
      assert cur + [c[0]] + c[1..] == cur + c;
      if c[0] == '"' {
        CleanPrefix(c[1..], rest, sep, !inQuote, cur + [c[0]]);
      } else {
        CleanPrefix(c[1..], rest, sep, inQuote, cur + [c[0]]);
      }
    }
  }

  /** Joining clean pieces with `sep` and splitting outside quotes gives the pieces back. */
  lemma {:induction false} SplitJoin(parts: seq<string>, sep: char)
    requires |parts| >= 1 && sep != '"'
    requires forall i :: 0 <= i < |parts| ==> Clean(parts[i], sep, false)
    ensures SplitOutsideQuotes(Join(parts, [sep]), sep) == parts
    decreases |parts|
  {
    if |parts| == 1 {
      assert Join(parts, [sep]) == parts[0];
      CleanPrefix(parts[0], [], sep, false, []);
      assert parts[0] + [] == parts[0];
      assert [] + parts[0] == parts[0];
      assert SplitFrom([], sep, false, parts[0]) == [parts[0]];
      assert parts == [parts[0]];
    } else {
      var tail := Join(parts[1..], [sep]);
      assert Join(parts, [sep]) == parts[0] + ([sep] + tail);
      CleanPrefix(parts[0], [sep] + tail, sep, false, []);
      assert ([sep] + tail)[1..] == tail;
      SplitJoin(parts[1..], sep);
      assert [] + parts[0] == parts[0];
      assert parts == [parts[0]] + parts[1..];
    }
  }

  lemma {:induction false} CleanConcat(a: string, b: string, sep: char, inQuote: bool)
    requires Clean(a, sep, inQuote) && Clean(b, sep, false)
    ensures Clean(a + b, sep, inQuote)
    decreases |a|
  {
    if a == [] {
      assert a + b == b;
    } else {
      assert (a + b)[0] == a[0];
      assert (a + b)[1..] == a[1..] + b;
      if a[0] == '"' {
        CleanConcat(a[1..], b, sep, !inQuote);
      } else {
        CleanConcat(a[1..], b, sep, inQuote);
      }
    }
  }

  /** Cells clean for `outer` stay clean once joined with a different, quote-free separator. */
  lemma {:induction false} JoinClean(parts: seq<string>, sep: char, outer: char)
    requires sep != outer && sep != '"'
    requires forall i :: 0 <= i < |parts| ==> Clean(parts[i], outer, false)
    ensures Clean(Join(parts, [sep]), outer, false)
    decreases |parts|
  {
    if |parts| > 1 {
      JoinClean(parts[1..], sep, outer);
      var tail := Join(parts[1..], [sep]);
      assert [sep][1..] == [];
      assert Clean([sep], outer, false);
      CleanConcat([sep], tail, outer, false);
      CleanConcat(parts[0], [sep] + tail, outer, false);
      assert Join(parts, [sep]) == parts[0] + ([sep] + tail);
    }
  }

  /** Text without quotes and without `sep` is clean. */
  lemma {:induction false} PlainClean(s: string, sep: char)
    requires '"' !in s && sep !in s
    ensures Clean(s, sep, false)
    decreases |s|
  {
    if s != [] {
      assert s[0] in s;
      assert forall c :: c in s[1..] ==> c in s;
      PlainClean(s[1..], sep);
    }
  }

  /** Inside quotes, quote-free text is skipped over whatever it holds. */
  lemma {:induction false} QuotedSkip(s: string, rest: string, sep: char)
    requires '"' !in s
    ensures Clean(s + rest, sep, true) == Clean(rest, sep, true)
    decreases |s|
  {
    if s == [] {
      assert s + rest == rest;
    } else {
      assert s[0] in s;
      assert forall c :: c in s[1..] ==> c in s;
      assert (s + rest)[0] == s[0];
      assert (s + rest)[1..] == s[1..] + rest;
      QuotedSkip(s[1..], rest, sep);
    }
  }

  /** Quoted text is clean whatever it holds, so long as it holds no quote. */
  lemma QuotedClean(s: string, sep: char)
    requires '"' !in s
    ensures Clean(Quote(s), sep, false)
  {
    var q := Quote(s);
    assert q[0] == '"';
    assert q[1..] == s + "\"";
    QuotedSkip(s, "\"", sep);
    assert "\""[1..] == [];
  }

  /** A clean first line followed by clean lines splits back by newline into exactly those lines. */
  lemma LinesReadBack(first: string, rest: seq<string>)
    requires Clean(first, '\n', false)
    requires forall i :: 0 <= i < |rest| ==> Clean(rest[i], '\n', false)
    ensures SplitOutsideQuotes(Join([first] + rest, "\n"), '\n') == [first] + rest
  {
    var lines := [first] + rest;
    forall i | 0 <= i < |lines| ensures Clean(lines[i], '\n', false) {
      if i > 0 {
        assert lines[i] == rest[i - 1];
      }
    }
    SplitJoin(lines, '\n');
  }
}
