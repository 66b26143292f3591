/** The `.dev.vars` reader of the development server: the file is split into lines, each
    line is trimmed, blank lines and `#` comments are skipped, and a line `KEY=VALUE` with a
    non-empty key sets `KEY` to everything after the first `=`. A file that cannot be read
    gives no variables. */
module DevVars {
  import opened JsValues

  // ---------------------------------------------------------------------------
  // String.prototype.trim

  /** The characters `String.prototype.trim` removes: the ECMAScript WhiteSpace and
      LineTerminator code points. */
  predicate IsJsWhitespace(c: char)
  {
    c == '\t' || c == '\n' || c == '\U{000B}' || c == '\U{000C}' || c == '\r' || c == ' '
    || c == '\U{00A0}' || c == '\U{1680}' || ('\U{2000}' <= c <= '\U{200A}')
    || c == '\U{2028}' || c == '\U{2029}' || c == '\U{202F}' || c == '\U{205F}'
    || c == '\U{3000}' || c == '\U{FEFF}'
  }

  predicate AllWhitespace(s: string)
  {
    forall i :: 0 <= i < |s| ==> IsJsWhitespace(s[i])
  }

  /** A string with no whitespace at either end. */
  predicate IsTrimmed(s: string)
  {
    s == [] || (!IsJsWhitespace(s[0]) && !IsJsWhitespace(s[|s| - 1]))
  }

  /** The string without its leading whitespace. */
  function TrimStart(s: string): (r: string)
    ensures |r| <= |s|
  {
    if s != [] && IsJsWhitespace(s[0]) then TrimStart(s[1..]) else s
  }

  /** What remains is a suffix that is empty or starts with a non-whitespace character,
      and everything dropped is whitespace. */
  lemma {:induction false} TrimStartDropsLeadingWhitespace(s: string)
    ensures var r := TrimStart(s);
            r == s[|s| - |r|..] && AllWhitespace(s[..|s| - |r|])
            && (r == [] || !IsJsWhitespace(r[0]))
  {
    if s != [] && IsJsWhitespace(s[0]) {
      TrimStartDropsLeadingWhitespace(s[1..]);
      var r := TrimStart(s);
      assert s[..|s| - |r|] == [s[0]] + s[1..][..|s| - 1 - |r|];
    }
  }

  /** The string without its trailing whitespace. */
  function TrimEnd(s: string): (r: string)
    ensures |r| <= |s|
  {
    if s != [] && IsJsWhitespace(s[|s| - 1]) then TrimEnd(s[..|s| - 1]) else s
  }

  /** What remains is a prefix that is empty or ends with a non-whitespace character, and
      everything dropped is whitespace. */
  lemma {:induction false} TrimEndDropsTrailingWhitespace(s: string)
    ensures var r := TrimEnd(s);
            r == s[..|r|] && AllWhitespace(s[|r|..])
            && (r == [] || !IsJsWhitespace(r[|r| - 1]))
  {
    if s != [] && IsJsWhitespace(s[|s| - 1]) {
      var shorter := s[..|s| - 1];
      TrimEndDropsTrailingWhitespace(shorter);
      var r := TrimEnd(s);
      assert s[|r|..] == shorter[|r|..] + [s[|s| - 1]];
    }
  }

  /** `line.trim()`. */
  function Trim(s: string): (r: string)
    ensures |r| <= |s|
  {
    TrimEnd(TrimStart(s))
  }

  /** `trim` leaves no whitespace at either end, and drops only whitespace: the input is
      the result with whitespace runs before and after it. */
  lemma TrimDropsSurroundingWhitespace(s: string)
    ensures IsTrimmed(Trim(s))
    ensures var r := Trim(s);
            exists front: nat :: front + |r| <= |s| && s == s[..front] + r + s[front + |r|..]
              && AllWhitespace(s[..front]) && AllWhitespace(s[front + |r|..])
  {
    var mid := TrimStart(s);
    TrimStartDropsLeadingWhitespace(s);
    TrimEndDropsTrailingWhitespace(mid);
    var r := Trim(s);
    var front := |s| - |mid|;
    assert r != [] ==> r[0] == mid[0];
    assert mid == r + mid[|r|..];
    assert s[front + |r|..] == mid[|r|..];
    assert s == s[..front] + r + s[front + |r|..];
  }

  lemma {:induction false} TrimStartOfTrimmed(w: string, t: string)
    requires AllWhitespace(w) && (t == [] || !IsJsWhitespace(t[0]))
    ensures TrimStart(w + t) == t
    decreases |w|
  {
    if w == [] {
      assert w + t == t;
    } else {
      assert (w + t)[1..] == w[1..] + t;
      TrimStartOfTrimmed(w[1..], t);
    }
  }

  lemma {:induction false} TrimEndOfTrimmed(t: string, w: string)
    requires AllWhitespace(w) && (t == [] || !IsJsWhitespace(t[|t| - 1]))
    ensures TrimEnd(t + w) == t
    decreases |w|
  {
    if w == [] {
      assert t + w == t;
    } else {
      assert (t + w)[..|t + w| - 1] == t + w[..|w| - 1];
      TrimEndOfTrimmed(t, w[..|w| - 1]);
    }
  }

  /** Conversely, a trimmed string between two runs of whitespace is what `trim` gives. */
  lemma TrimOfSurrounded(front: string, t: string, back: string)
    requires AllWhitespace(front) && AllWhitespace(back) && IsTrimmed(t)
    ensures Trim(front + t + back) == t
  {
    if t == [] {
      assert front + t + back == (front + back) + [];
      TrimStartOfTrimmed(front + back, []);
    } else {
      assert front + t + back == front + (t + back);
      assert (t + back)[0] == t[0];
      TrimStartOfTrimmed(front, t + back);
      TrimEndOfTrimmed(t, back);
    }
  }

  /** Trimming twice is trimming once. */
  lemma TrimIdempotent(s: string)
    ensures Trim(Trim(s)) == Trim(s)
  {
    var t := Trim(s);
    TrimDropsSurroundingWhitespace(s);
    assert [] + t + [] == t;
    TrimOfSurrounded([], t, []);
  }

  // ---------------------------------------------------------------------------
  // content.split('\n')

  /** `content.split('\n')`. */
  function Lines(s: string): (lines: seq<string>)
    ensures |lines| >= 1
    decreases |s|
  {
    var i := IndexOf(s, '\n');
    if i < 0 then [s] else [s[..i]] + Lines(s[i + 1..])
  }

  /** `lines.join('\n')`. */
  function JoinLines(lines: seq<string>): string
    requires |lines| >= 1
  {
    if |lines| == 1 then lines[0] else lines[0] + "\n" + JoinLines(lines[1..])
  }

  /** Splitting gives lines without line feeds that join back to the content. */
  lemma {:induction false} LinesJoinBack(s: string)
    ensures forall k :: 0 <= k < |Lines(s)| ==> '\n' !in Lines(s)[k]
    ensures JoinLines(Lines(s)) == s
    decreases |s|
  {
    var i := IndexOf(s, '\n');
    IndexOfIsFirst(s, '\n');
    if i >= 0 {
      LinesJoinBack(s[i + 1..]);
      assert s == s[..i] + "\n" + s[i + 1..];
      var lines := Lines(s);
      assert lines == [s[..i]] + Lines(s[i + 1..]);
      forall k | 0 <= k < |lines|
        ensures '\n' !in lines[k]
      {
        if k > 0 {
          assert lines[k] == Lines(s[i + 1..])[k - 1];
        }
      }
    }
  }

  /** Splitting lines without line feeds after joining them gives the same lines. */
  lemma {:induction false} SplitOfJoinLines(lines: seq<string>)
    requires |lines| >= 1
    requires forall k :: 0 <= k < |lines| ==> '\n' !in lines[k]
    ensures Lines(JoinLines(lines)) == lines
  {
    var s := JoinLines(lines);
    if |lines| == 1 {
      IndexOfIsFirst(s, '\n');
    } else {
      var first := lines[0];
      var rest := JoinLines(lines[1..]);
      assert s == first + "\n" + rest;
      IndexOfAfter(first, '\n', rest);
      assert s[..|first|] == first;
      assert s[|first| + 1..] == rest;
      SplitOfJoinLines(lines[1..]);
      assert lines == [first] + lines[1..];
    }
  }

  // ---------------------------------------------------------------------------
  // One line

  /** What one line of the file contributes, as the loop body of `loadDevVars` decides it. */
  function ParseLine(line: string): Option<(string, string)>
  {
    var trimmed := Trim(line);
    if trimmed == "" || trimmed[0] == '#' then None
    else
      var eqIdx := IndexOf(trimmed, '=');
      if eqIdx > 0 then Some((trimmed[..eqIdx], trimmed[eqIdx + 1..])) else None
  }

  /** A line contributes nothing exactly when it is blank, a `#` comment, has no `=`, or
      starts with `=` once trimmed; otherwise the key is the trimmed line before its first
      `=` (not empty, not trimmed on the right) and the value is everything after it, later
      `=` characters included. */
  lemma ParseLineMeaning(line: string)
    ensures var t := Trim(line);
            ParseLine(line).None? <==> t == "" || t[0] == '#' || t[0] == '=' || '=' !in t
    ensures ParseLine(line).Some? ==>
              var (key, value) := ParseLine(line).value;
              key + "=" + value == Trim(line) && key != "" && '=' !in key
              && key[0] != '#' && !IsJsWhitespace(key[0])
  {
    var t := Trim(line);
    TrimDropsSurroundingWhitespace(line);
    IndexOfIsFirst(t, '=');
    var eqIdx := IndexOf(t, '=');
    if t != "" && t[0] != '#' && eqIdx > 0 {
      assert t == t[..eqIdx] + "=" + t[eqIdx + 1..];
      assert t[..eqIdx][0] == t[0];
    }
  }

  /** Conversely, a `KEY=VALUE` line, with whitespace around it, a key that starts with
      neither whitespace nor `#` and holds no `=`, and a value that does not end in
      whitespace, defines exactly that key and value. */
  lemma ParseLineOfAssignment(front: string, key: string, value: string, back: string)
    requires AllWhitespace(front) && AllWhitespace(back)
    requires key != "" && '=' !in key && key[0] != '#' && !IsJsWhitespace(key[0])
    requires value == "" || !IsJsWhitespace(value[|value| - 1])
    ensures ParseLine(front + key + "=" + value + back) == Some((key, value))
  {
    var t := key + "=" + value;
    assert front + key + "=" + value + back == front + t + back;
    assert t[0] == key[0] && t[|t| - 1] == (if value == "" then '=' else value[|value| - 1]);
    TrimOfSurrounded(front, t, back);
    assert t == key + ['='] + value;
    IndexOfAfter(key, '=', value);
    assert t[..|key|] == key && t[|key| + 1..] == value;
  }

  /** Spaces around `=` stay in the key and the value: `KEY = v` defines `"KEY "`. */
  lemma SpacesAroundEqualsAreKept()
    ensures ParseLine("KEY = v") == Some(("KEY ", " v"))
  {
    assert "" + "KEY " + "=" + " v" + "" == "KEY = v";
    ParseLineOfAssignment("", "KEY ", " v", "");
  }

  // ---------------------------------------------------------------------------
  // The whole file

  predicate DefinesKey(line: string, key: string)
  {
    ParseLine(line).Some? && ParseLine(line).value.0 == key
  }

  /** The variables after the given lines, each line applied in order to the record. */
  function VarsOf(lines: seq<string>): map<string, string>
  {
    if lines == [] then map[]
    else
      var before := VarsOf(lines[..|lines| - 1]);
      match ParseLine(lines[|lines| - 1])
      case None => before
      case Some((key, value)) => before[key := value]
  }

  /** `loadDevVars` given the file content, or `None` when reading it throws. */
  function DevVarsOf(content: Option<string>): map<string, string>
  {
    match content
    case None => map[]
    case Some(text) => VarsOf(Lines(text))
  }

  /** `loadDevVars`: read the file, then loop over its lines updating the record. */
  method LoadDevVars(content: Option<string>) returns (vars: map<string, string>)
    ensures vars == DevVarsOf(content)
    ensures content.None? ==> vars == map[]
  {
    vars := map[];
    if content.None? {
      return;
    }
    var lines := Lines(content.value);
    for n := 0 to |lines|
      invariant vars == VarsOf(lines[..n])
    {
      assert lines[..n + 1] == lines[..n] + [lines[n]];
      var trimmed := Trim(lines[n]);
      if trimmed != "" && trimmed[0] != '#' {
        var eqIdx := IndexOf(trimmed, '=');
        if eqIdx > 0 {
          vars := vars[trimmed[..eqIdx] := trimmed[eqIdx + 1..]];
        }
      }
    }
    assert lines[..|lines|] == lines;
  }

  /** A key is defined exactly when some line defines it. */
  lemma {:induction false} VarsOfKeys(lines: seq<string>, key: string)
    ensures key in VarsOf(lines) <==> exists k :: 0 <= k < |lines| && DefinesKey(lines[k], key)
  {
    if lines != [] {
      var before := lines[..|lines| - 1];
      VarsOfKeys(before, key);
      if exists k :: 0 <= k < |before| && DefinesKey(before[k], key) {
        var k :| 0 <= k < |before| && DefinesKey(before[k], key);
        assert lines[k] == before[k];
      }
      if exists k :: 0 <= k < |lines| && DefinesKey(lines[k], key) {
        var k :| 0 <= k < |lines| && DefinesKey(lines[k], key);
        if k < |before| {
          assert before[k] == lines[k];
        }
      }
    }
  }

  /** The last line that defines a key decides its value. */
  lemma {:induction false} LastDefinitionWins(lines: seq<string>, k: nat, key: string, value: string)
    requires k < |lines| && ParseLine(lines[k]) == Some((key, value))
    requires forall j :: k < j < |lines| ==> !DefinesKey(lines[j], key)
    ensures key in VarsOf(lines) && VarsOf(lines)[key] == value
  {
    if k < |lines| - 1 {
      var before := lines[..|lines| - 1];
      assert before[k] == lines[k];
      forall j | k < j < |before|
        ensures !DefinesKey(before[j], key)
      {
        assert before[j] == lines[j];
      }
      LastDefinitionWins(before, k, key, value);
      assert !DefinesKey(lines[|lines| - 1], key);
    }
  }

  /** A line that contributes nothing can be dropped from anywhere in the file. */
  lemma {:induction false} IgnoredLineHasNoEffect(front: seq<string>, line: string, back: seq<string>)
    requires ParseLine(line).None?
    ensures VarsOf(front + [line] + back) == VarsOf(front + back)
    decreases |back|
  {
    if back == [] {
      assert (front + [line] + back)[..|front| + 1 - 1] == front;
      assert front + back == front;
    } else {
      var shorter := back[..|back| - 1];
      IgnoredLineHasNoEffect(front, line, shorter);
      assert (front + [line] + back)[..|front + [line] + back| - 1] == front + [line] + shorter;
      assert (front + back)[..|front + back| - 1] == front + shorter;
    }
  }
}
