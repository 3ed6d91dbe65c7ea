/** The string helpers of the NATS client: search, trimming and splitting, with their loops. */
module Text {
  // Search

  predicate OccursAt(s: string, m: string, i: int) {
    0 <= i && i + |m| <= |s| && s[i..i + |m|] == m
  }

  function IndexFrom(s: string, m: string, i: nat): (r: int)
    decreases |s| - i
  {
    if i + |m| > |s| then -1 else if s[i..i + |m|] == m then i else IndexFrom(s, m, i + 1)
  }

  function Index(s: string, m: string): int {
    IndexFrom(s, m, 0)
  }

  /** The least index at or after `i`, or -1 if there is none. */
  lemma {:induction false} IndexFromLeast(s: string, m: string, i: nat)
    ensures var r := IndexFrom(s, m, i);
            if r < 0 then r == -1 && forall j | i <= j :: !OccursAt(s, m, j)
            else i <= r && OccursAt(s, m, r) && forall j | i <= j < r :: !OccursAt(s, m, j)
    decreases |s| - i
  {
    if i + |m| <= |s| && s[i..i + |m|] != m {
      IndexFromLeast(s, m, i + 1);
    }
  }

  lemma IndexFits(s: string, m: string)
    ensures Index(s, m) == -1 || 0 <= Index(s, m) <= |s| - |m|
  {
    IndexFromLeast(s, m, 0);
  }

  lemma IndexIs(s: string, m: string, r: int)
    requires if r < 0 then r == -1 && forall j :: !OccursAt(s, m, j)
             else OccursAt(s, m, r) && forall j | 0 <= j < r :: !OccursAt(s, m, j)
    ensures Index(s, m) == r
  {
    IndexFromLeast(s, m, 0);
  }

  method Find(s: string, m: string) returns (r: int)
    ensures r == Index(s, m)
  {
    var i := 0;
    while i <= |s| - |m|
      invariant 0 <= i
      invariant Index(s, m) == IndexFrom(s, m, i)
      decreases |s| - i
    {
      if s[i..i + |m|] == m {
        return i;
      }
      i := i + 1;
    }
    return -1;
  }

  // Trimming

  predicate IsWhitespace(c: char) {
    c == ' ' || c == '\t' || c == '\n' || c == '\r'
  }

  function TrimLeft(s: string): string {
    if s != "" && IsWhitespace(s[0]) then TrimLeft(s[1..]) else s
  }

  function TrimRight(s: string): string {
    if s != "" && IsWhitespace(s[|s| - 1]) then TrimRight(s[..|s| - 1]) else s
  }

  function Trimmed(s: string): string {
    TrimRight(TrimLeft(s))
  }

  method Trim(s: string) returns (r: string)
    ensures r == Trimmed(s)
  {
    var start, end := 0, |s|;
    while start < |s| && IsWhitespace(s[start])
      invariant 0 <= start <= |s|
      invariant TrimLeft(s) == TrimLeft(s[start..])
    {
      assert s[start..][1..] == s[start + 1..];
      start := start + 1;
    }
    assert s[start..end] == s[start..];
    while end > start && IsWhitespace(s[end - 1])
      invariant start <= end <= |s|
      invariant Trimmed(s) == TrimRight(s[start..end])
    {
      assert s[start..end][..end - start - 1] == s[start..end - 1];
      end := end - 1;
    }
    return s[start..end];
  }

  /** What trimming means: whitespace, then a text that is empty or has none at its ends, then whitespace. */
  predicate Tight(s: string) {
    s == "" || (s[0] !in " \t\n\r" && s[|s| - 1] !in " \t\n\r")
  }

  predicate Blank(s: string) {
    forall c | c in s :: c in " \t\n\r"
  }

  lemma {:induction false} TrimLeftSplits(s: string) returns (a: string)
    ensures Blank(a) && s == a + TrimLeft(s)
    ensures TrimLeft(s) == "" || TrimLeft(s)[0] !in " \t\n\r"
  {
    if s != "" && IsWhitespace(s[0]) {
      var rest := TrimLeftSplits(s[1..]);
      a := [s[0]] + rest;
    } else {
      a := "";
    }
  }

  lemma {:induction false} TrimRightSplits(s: string) returns (b: string)
    ensures Blank(b) && s == TrimRight(s) + b
    ensures TrimRight(s) == "" || TrimRight(s)[|TrimRight(s)| - 1] !in " \t\n\r"
  {
    if s != "" && IsWhitespace(s[|s| - 1]) {
      var rest := TrimRightSplits(s[..|s| - 1]);
      b := rest + [s[|s| - 1]];
    } else {
      b := "";
    }
  }

  lemma TrimmedSplits(s: string) returns (a: string, b: string)
    ensures Blank(a) && Blank(b) && s == a + Trimmed(s) + b && Tight(Trimmed(s))
  {
    hide Blank, TrimLeft, TrimRight, IsWhitespace;
    a := TrimLeftSplits(s);
    b := TrimRightSplits(TrimLeft(s));
    Associate(a, Trimmed(s), b);
    if Trimmed(s) != "" {
      assert Trimmed(s)[0] == TrimLeft(s)[0];
    }
  }

  lemma Associate(a: string, s: string, b: string)
    ensures a + (s + b) == a + s + b
  {
  }

  lemma {:induction false} TrimLeftBlank(a: string, s: string)
    requires Blank(a)
    ensures TrimLeft(a + s) == TrimLeft(s)
  {
    if a == "" {
      assert a + s == s;
    } else {
      assert a[0] in a && (a + s)[1..] == a[1..] + s;
      TrimLeftBlank(a[1..], s);
    }
  }

  lemma {:induction false} TrimRightBlank(s: string, b: string)
    requires Blank(b)
    ensures TrimRight(s + b) == TrimRight(s)
  {
    if b == "" {
      assert s + b == s;
    } else {
      assert b[|b| - 1] in b && (s + b)[..|s + b| - 1] == s + b[..|b| - 1];
      TrimRightBlank(s, b[..|b| - 1]);
    }
  }

  /** Trimming strips any blank padding of a tight text, so it is the only such decomposition. */
  lemma TrimmedIs(a: string, s: string, b: string)
    requires Blank(a) && Blank(b) && Tight(s)
    ensures Trimmed(a + s + b) == s
  {
    assert a + s + b == a + (s + b);
    TrimLeftBlank(a, s + b);
    if s == "" {
      assert s + b == b + "";
      TrimLeftBlank(b, "");
    } else {
      TrimRightBlank(s, b);
    }
  }

  lemma TrimmedPadded(a: string, s: string, b: string)
    requires Blank(a) && Blank(b)
    ensures Trimmed(a + s + b) == Trimmed(s)
  {
    var x, y := TrimmedSplits(s);
    assert a + s + b == (a + x) + Trimmed(s) + (y + b);
    TrimmedIs(a + x, Trimmed(s), y + b);
  }

  // Lines

  predicate OneLine(s: string) {
    '\n' !in s
  }

  /** The lines of `s[start..]`, given that `s[start..i]` holds no newline. */
  function SplitFrom(s: string, start: nat, i: nat): seq<string>
    requires start <= i <= |s|
    decreases |s| - i
  {
    if i == |s| then if start < |s| then [s[start..]] else []
    else if s[i] == '\n' then [s[start..i]] + SplitFrom(s, i + 1, i + 1)
    else SplitFrom(s, start, i + 1)
  }

  method SplitLines(s: string) returns (lines: seq<string>)
    ensures lines == SplitFrom(s, 0, 0)
  {
    lines := [];
    var start := 0;
    for i := 0 to |s|
      invariant 0 <= start <= i
      invariant lines + SplitFrom(s, start, i) == SplitFrom(s, 0, 0)
    {
      if s[i] == '\n' {
        assert lines + SplitFrom(s, start, i) == (lines + [s[start..i]]) + SplitFrom(s, i + 1, i + 1);
        lines := lines + [s[start..i]];
        start := i + 1;
      }
    }
    if start < |s| {
      lines := lines + [s[start..]];
    }
  }

  /** Each line followed by a newline. */
  function Terminated(lines: seq<string>): string {
    if lines == [] then "" else lines[0] + "\n" + Terminated(lines[1..])
  }

  /** Splitting loses nothing: the pieces are single lines and, each terminated, give the text back,
      with a final newline if it lacked one. */
  lemma {:induction false} SplitJoins(s: string, start: nat, i: nat)
    requires start <= i <= |s| && OneLine(s[start..i])
    ensures forall x | x in SplitFrom(s, start, i) :: OneLine(x)
    ensures Terminated(SplitFrom(s, start, i)) == s[start..] + FinalNewline(s, start)
    decreases |s| - i
  {
    if i == |s| {
      LastLine(s, start);
    } else if s[i] == '\n' {
      SplitJoins(s, i + 1, i + 1);
      LineJoins(s, start, i);
    } else {
      assert s[start..i + 1] == s[start..i] + [s[i]];
      SplitJoins(s, start, i + 1);
    }
  }

  /** The newline that the text from `start` on lacks at its end. */
  function FinalNewline(s: string, start: nat): string
    requires start <= |s|
  {
    if start == |s| || s[|s| - 1] == '\n' then "" else "\n"
  }

  lemma LastLine(s: string, start: nat)
    requires start <= |s| && OneLine(s[start..])
    ensures Terminated(SplitFrom(s, start, |s|)) == s[start..] + FinalNewline(s, start)
    ensures forall x | x in SplitFrom(s, start, |s|) :: OneLine(x)
  {
    if start < |s| {
      assert s[|s| - 1] in s[start..];
    }
  }

  lemma LineJoins(s: string, start: nat, i: nat)
    requires start <= i < |s| && s[i] == '\n' && OneLine(s[start..i])
    requires Terminated(SplitFrom(s, i + 1, i + 1)) == s[i + 1..] + FinalNewline(s, i + 1)
    ensures Terminated(SplitFrom(s, start, i)) == s[start..] + FinalNewline(s, start)
  {
    var line, rest := s[start..i], SplitFrom(s, i + 1, i + 1);
    assert ([line] + rest)[1..] == rest;
    assert s[start..] == line + "\n" + s[i + 1..];
  }

  // The newline-separated list of account keys

  function NonBlank(lines: seq<string>): seq<string> {
    if lines == [] then []
    else NonBlank(lines[..|lines| - 1])
         + if Trimmed(lines[|lines| - 1]) != "" then [Trimmed(lines[|lines| - 1])] else []
  }

  method ParseKeyList(response: string) returns (keys: seq<string>)
    ensures keys == NonBlank(SplitFrom(response, 0, 0))
  {
    keys := [];
    var lines := SplitLines(response);
    for i := 0 to |lines|
      invariant keys == NonBlank(lines[..i])
    {
      assert lines[..i + 1][..i] == lines[..i];
      var line := Trim(lines[i]);
      if line != "" {
        keys := keys + [line];
      }
    }
    assert lines[..|lines|] == lines;
  }

  /** The list holds exactly the trimmed lines that are not blank. */
  lemma {:induction false} NonBlankIff(lines: seq<string>, key: string)
    ensures key in NonBlank(lines) <==> key != "" && exists line | line in lines :: Trimmed(line) == key
  {
    if lines != [] {
      var front, last := lines[..|lines| - 1], lines[|lines| - 1];
      NonBlankIff(front, key);
      assert lines == front + [last];
    }
  }

  /** A key as it can appear on a line of its own. */
  predicate Listable(key: string) {
    key != "" && OneLine(key) && Tight(key)
  }

  lemma {:induction false} SplitLine(line: string, rest: string, i: nat)
    requires OneLine(line) && i <= |line|
    ensures SplitFrom(line + "\n" + rest, 0, i)
            == [line] + SplitFrom(line + "\n" + rest, |line| + 1, |line| + 1)
    decreases |line| - i
  {
    var s := line + "\n" + rest;
    if i < |line| {
      assert s[i] == line[i];
      SplitLine(line, rest, i + 1);
    } else {
      assert s[0..i] == line;
    }
  }

  lemma {:induction false} SplitShift(s: string, t: string, start: nat, i: nat)
    requires start <= i <= |t|
    ensures SplitFrom(s + t, |s| + start, |s| + i) == SplitFrom(t, start, i)
    decreases |t| - i
  {
    assert (s + t)[|s| + start..] == t[start..];
    if i < |t| {
      assert (s + t)[|s| + i] == t[i];
      assert (s + t)[|s| + start..|s| + i] == t[start..i];
      if t[i] == '\n' {
        SplitShift(s, t, i + 1, i + 1);
      } else {
        SplitShift(s, t, start, i + 1);
      }
    }
  }

  lemma {:induction false} SplitTerminated(lines: seq<string>)
    requires forall x | x in lines :: OneLine(x)
    ensures SplitFrom(Terminated(lines), 0, 0) == lines
  {
    if lines != [] {
      var rest := Terminated(lines[1..]);
      SplitLine(lines[0], rest, 0);
      SplitShift(lines[0] + "\n", rest, 0, 0);
      SplitTerminated(lines[1..]);
      assert lines == [lines[0]] + lines[1..];
    }
  }

  lemma {:induction false} NonBlankKeys(keys: seq<string>)
    requires forall k | k in keys :: Listable(k)
    ensures NonBlank(keys) == keys
  {
    if keys != [] {
      var front, last := keys[..|keys| - 1], keys[|keys| - 1];
      NonBlankKeys(front);
      assert last in keys;
      TrimmedIs("", last, "");
      assert "" + last + "" == last;
      assert keys == front + [last];
    }
  }

  /** A list of keys printed one per line is read back exactly. */
  lemma KeyListRoundTrip(keys: seq<string>)
    requires forall k | k in keys :: Listable(k)
    ensures NonBlank(SplitFrom(Terminated(keys), 0, 0)) == keys
  {
    SplitTerminated(keys);
    NonBlankKeys(keys);
  }
}
