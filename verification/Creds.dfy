/** The `.creds` file: printed for a user, parsed by the NATS client. */
module Creds {
  import opened Text

  const JWT_START := "-----BEGIN NATS USER JWT-----"
  const JWT_END := "------END NATS USER JWT------"
  const SEED_START := "-----BEGIN USER NKEY SEED-----"
  const SEED_END := "------END USER NKEY SEED------"

  /** The lines between the JWT and the seed, and those after the seed. */
  const STARS := "*************************"
  const NOTICE := STARS + " IMPORTANT " + STARS
  const NOTICE_USE := "NKEY Seed printed " + "below can be used " + "to sign and prove " + "identity."
  const NOTICE_SECRET := "NKEYs are sensitive " + "and should be " + "treated as secrets."
  const RULE := STARS + "***********" + STARS

  function CredsFile(jwt: string, seed: string): string {
    JWT_START + "\n" + (jwt + "\n" + (JWT_END + "\n" + AfterJwt(seed)))
  }

  function AfterJwt(seed: string): string {
    "" + "\n" + (NOTICE + "\n" + (NOTICE_USE + "\n" + (NOTICE_SECRET + "\n" + ("" + "\n" + SeedPart(seed)))))
  }

  function SeedPart(seed: string): string {
    SEED_START + "\n" + (seed + "\n" + (SEED_END + "\n" + ("" + "\n" + (RULE + "\n"))))
  }

  /** `Panic`: a slice whose end precedes its start. */
  datatype Parsed = Credentials(jwt: string, seed: string) | Malformed | Panic
  datatype Field = Found(text: string) | Missing | Crossed

  /** The trimmed text between the first occurrences of two markers. */
  function Between(content: string, startMarker: string, endMarker: string): Field {
    var start, end := Index(content, startMarker), Index(content, endMarker);
    if start < 0 || end < 0 then Missing
    else if start + |startMarker| > end || end > |content| then Crossed
    else Found(Trimmed(content[start + |startMarker|..end]))
  }

  /** The client's reading of a file: first the JWT, then the seed. */
  function Parse(content: string): Parsed {
    match Between(content, JWT_START, JWT_END)
    case Missing => Malformed
    case Crossed => Panic
    case Found(jwt) =>
      match Between(content, SEED_START, SEED_END)
      case Missing => Malformed
      case Crossed => Panic
      case Found(seed) => if jwt == "" || seed == "" then Malformed else Credentials(jwt, seed)
  }

  method ParseCredsContent(content: string) returns (r: Parsed)
    ensures r == Parse(content)
  {
    hide Index, Trimmed;
    var idx := Find(content, JWT_START);
    if idx < 0 { return Malformed; }
    var startIdx := idx + |JWT_START|;
    idx := Find(content, JWT_END);
    if idx < 0 { return Malformed; }
    var endIdx := idx;
    IndexFits(content, JWT_END);
    if startIdx > endIdx { return Panic; }
    var jwt := Trim(content[startIdx..endIdx]);
    idx := Find(content, SEED_START);
    if idx < 0 { return Malformed; }
    startIdx := idx + |SEED_START|;
    idx := Find(content, SEED_END);
    if idx < 0 { return Malformed; }
    endIdx := idx;
    IndexFits(content, SEED_END);
    if startIdx > endIdx { return Panic; }
    var seed := Trim(content[startIdx..endIdx]);
    if jwt == "" || seed == "" { return Malformed; }
    return Credentials(jwt, seed);
  }

  // Where the markers are. A marker has no newline, so it lies within one line of the file.

  lemma StraddleHasNewline(left: string, right: string, m: string, i: nat)
    requires OccursAt(left + "\n" + right, m, i) && i <= |left| < i + |m|
    ensures '\n' in m
  {
    assert m[|left| - i] == (left + "\n" + right)[|left|];
  }

  lemma NoStraddle(left: string, right: string, m: string, i: int)
    requires OneLine(m) && m != "" && OccursAt(left + "\n" + right, m, i)
    ensures OccursAt(left, m, i) || (i > |left| && OccursAt(right, m, i - |left| - 1))
  {
    var s := left + "\n" + right;
    if i + |m| <= |left| {
      assert s[i..i + |m|] == left[i..i + |m|];
    } else if i > |left| {
      assert s[i..i + |m|] == right[i - |left| - 1..i - |left| - 1 + |m|];
    } else {
      StraddleHasNewline(left, right, m, i);
    }
  }

  /** The first occurrence, line by line. */
  lemma IndexSkipsLine(left: string, right: string, m: string)
    requires OneLine(m) && m != "" && Index(left, m) < 0
    ensures Index(left + "\n" + right, m) == if Index(right, m) < 0 then -1 else |left| + 1 + Index(right, m)
  {
    var s := left + "\n" + right;
    IndexFromLeast(left, m, 0);
    IndexFromLeast(right, m, 0);
    var r := Index(right, m);
    forall j | OccursAt(s, m, j) ensures j > |left| && OccursAt(right, m, j - |left| - 1) {
      NoStraddle(left, right, m, j);
    }
    if r >= 0 {
      assert s[|left| + 1 + r..|left| + 1 + r + |m|] == right[r..r + |m|];
    }
    IndexIs(s, m, if r < 0 then -1 else |left| + 1 + r);
  }

  lemma IndexAtStart(m: string, right: string)
    ensures Index(m + right, m) == 0
  {
    assert (m + right)[0..|m|] == m;
  }

  /** A line with no dash, or one no longer than the marker and different from it, does not hold it. */
  lemma NotInLine(line: string, m: string)
    requires m != "" && m[0] == '-' && ('-' !in line || (|line| <= |m| && line != m))
    ensures Index(line, m) == -1
  {
    forall i ensures !OccursAt(line, m, i) {
      if 0 <= i && i + |m| <= |line| {
        assert line[i..i + |m|][0] == line[i];
        assert |line| <= |m| ==> line[i..i + |m|] == line;
      }
    }
    IndexIs(line, m, -1);
  }

  // The printed file. A marker is looked for behind a line that does not hold it.

  predicate Absent(s: string, m: string) {
    Index(s, m) < 0
  }

  lemma NoticeHasNoDash()
    ensures '-' !in NOTICE
  {
  }

  lemma NoticeUseHasNoDash()
    ensures '-' !in NOTICE_USE
  {
  }

  lemma NoticeSecretHasNoDash()
    ensures '-' !in NOTICE_SECRET
  {
  }

  lemma NoticeHasNoMarker(seed: string, m: string)
    requires m != "" && m[0] == '-' && OneLine(m)
    ensures Index(AfterJwt(seed), m) == if Index(SeedPart(seed), m) < 0 then -1
                                        else |AfterJwt(seed)| - |SeedPart(seed)| + Index(SeedPart(seed), m)
  {
    NoticeHasNoDash();
    NoticeUseHasNoDash();
    NoticeSecretHasNoDash();
    var d := "" + "\n" + SeedPart(seed);
    var c := NOTICE_SECRET + "\n" + d;
    var b := NOTICE_USE + "\n" + c;
    var a := NOTICE + "\n" + b;
    NotInLine("", m);
    NotInLine(NOTICE_SECRET, m);
    NotInLine(NOTICE_USE, m);
    NotInLine(NOTICE, m);
    IndexSkipsLine("", SeedPart(seed), m);
    IndexSkipsLine(NOTICE_SECRET, d, m);
    IndexSkipsLine(NOTICE_USE, c, m);
    IndexSkipsLine(NOTICE, b, m);
    IndexSkipsLine("", a, m);
  }

  lemma JwtEndMarker()
    ensures |JWT_START| == |JWT_END| == 29 && JWT_END[0] == '-' && JWT_START != JWT_END && OneLine(JWT_END)
  {
    assert JWT_START[5] == 'B' && JWT_END[5] == '-';
    OneLineJwtEnd();
  }

  lemma OneLineJwtEnd()
    ensures OneLine(JWT_END)
  {
  }

  lemma SeedStartMarker()
    ensures |SEED_START| == 30 && SEED_START[0] == '-' && OneLine(SEED_START)
  {
    OneLineSeedStart();
  }

  lemma OneLineSeedStart()
    ensures OneLine(SEED_START)
  {
  }

  lemma SeedEndMarker()
    ensures |SEED_END| == 30 && SEED_END[0] == '-' && SEED_START != SEED_END && OneLine(SEED_END)
  {
    assert SEED_START[5] == 'B' && SEED_END[5] == '-';
    OneLineSeedEnd();
  }

  lemma OneLineSeedEnd()
    ensures OneLine(SEED_END)
  {
  }

  /** A text on lines of its own between two markers is found, trimmed. */
  lemma FieldIs(pre: string, a: string, x: string, m: string, post: string)
    requires var content := pre + a + "\n" + x + "\n" + m + post;
             Index(content, a) == |pre| && Index(content, m) == |pre| + |a| + |x| + 2
    ensures Between(pre + a + "\n" + x + "\n" + m + post, a, m) == Found(Trimmed(x))
  {
    var content := pre + a + "\n" + x + "\n" + m + post;
    assert content[|pre| + |a|..|pre| + |a| + |x| + 2] == "\n" + x + "\n";
    TrimmedPadded("\n", x, "\n");
  }

  /** Three lines: a start marker `a`, a text that does not hold `m`, and the end marker `m`. */
  function Block(a: string, x: string, m: string, rest: string): string {
    a + "\n" + (x + "\n" + (m + "\n" + rest))
  }

  lemma BlockIndex(a: string, x: string, m: string, rest: string)
    requires OneLine(m) && m != "" && m[0] == '-' && |a| <= |m| && a != m && Absent(x, m)
    ensures Index(Block(a, x, m, rest), a) == 0 && Index(Block(a, x, m, rest), m) == |a| + |x| + 2
  {
    var tail := m + "\n" + rest;
    assert tail == m + ("\n" + rest);
    IndexAtStart(m, "\n" + rest);
    NotInLine(a, m);
    IndexSkipsLine(x, tail, m);
    IndexSkipsLine(a, x + "\n" + tail, m);
    assert Block(a, x, m, rest) == a + ("\n" + (x + "\n" + tail));
    IndexAtStart(a, "\n" + (x + "\n" + tail));
  }

  /** The text of a block is found, trimmed, behind any text that the markers are not found in. */
  lemma BlockField(pre: string, a: string, x: string, m: string, rest: string)
    requires Index(pre + Block(a, x, m, rest), a) == |pre|
    requires Index(pre + Block(a, x, m, rest), m) == |pre| + |a| + |x| + 2
    ensures Between(pre + Block(a, x, m, rest), a, m) == Found(Trimmed(x))
  {
    assert pre + Block(a, x, m, rest) == pre + a + "\n" + x + "\n" + m + ("\n" + rest);
    FieldIs(pre, a, x, m, "\n" + rest);
  }

  /** The JWT is found, trimmed, if it does not hold the end marker itself. */
  lemma JwtField(jwt: string, seed: string)
    requires Absent(jwt, JWT_END)
    ensures Between(CredsFile(jwt, seed), JWT_START, JWT_END) == Found(Trimmed(jwt))
  {
    hide Between, AfterJwt, Index, Trimmed;
    JwtEndMarker();
    var block := Block(JWT_START, jwt, JWT_END, AfterJwt(seed));
    assert CredsFile(jwt, seed) == block;
    hide Block, CredsFile;
    BlockIndex(JWT_START, jwt, JWT_END, AfterJwt(seed));
    assert "" + block == block;
    BlockField("", JWT_START, jwt, JWT_END, AfterJwt(seed));
  }

  /** Up to the seed, a marker that the JWT does not hold is in no line of the file. */
  lemma HeadSkipped(jwt: string, seed: string, m: string)
    requires OneLine(m) && m != "" && m[0] == '-' && |m| == 30 && Absent(jwt, m)
    ensures Index(CredsFile(jwt, seed), m) == if Index(SeedPart(seed), m) < 0 then -1
                                              else |CredsFile(jwt, seed)| - |SeedPart(seed)| + Index(SeedPart(seed), m)
  {
    JwtEndMarker();
    NotInLine(JWT_START, m);
    NotInLine(JWT_END, m);
    NoticeHasNoMarker(seed, m);
    IndexSkipsLine(JWT_END, AfterJwt(seed), m);
    IndexSkipsLine(jwt, JWT_END + "\n" + AfterJwt(seed), m);
    IndexSkipsLine(JWT_START, jwt + "\n" + (JWT_END + "\n" + AfterJwt(seed)), m);
  }

  lemma EndsWith(a: string, b: string, c: string) returns (pre: string)
    requires exists x: string :: c == x + b
    ensures a + "\n" + c == pre + b
  {
    var x: string :| c == x + b;
    pre := a + "\n" + x;
  }

  /** The file ends with the seed part. */
  lemma FileSplits(jwt: string, seed: string) returns (pre: string)
    ensures CredsFile(jwt, seed) == pre + SeedPart(seed)
  {
    var part := SeedPart(seed);
    hide SeedPart;
    assert part == "" + part;
    var e := EndsWith("", part, part);
    var d := EndsWith(NOTICE_SECRET, part, e + part);
    var c := EndsWith(NOTICE_USE, part, d + part);
    var b := EndsWith(NOTICE, part, c + part);
    var a := EndsWith("", part, b + part);
    var y := EndsWith(JWT_END, part, a + part);
    var x := EndsWith(jwt, part, y + part);
    pre := EndsWith(JWT_START, part, x + part);
  }

  lemma SeedField(jwt: string, seed: string)
    requires Absent(jwt, SEED_START) && Absent(jwt, SEED_END) && Absent(seed, SEED_END)
    ensures Between(CredsFile(jwt, seed), SEED_START, SEED_END) == Found(Trimmed(seed))
  {
    hide Between, Index, Trimmed, CredsFile;
    var tail := "" + "\n" + (RULE + "\n");
    SeedStartMarker();
    SeedEndMarker();
    HeadSkipped(jwt, seed, SEED_START);
    HeadSkipped(jwt, seed, SEED_END);
    assert SeedPart(seed) == Block(SEED_START, seed, SEED_END, tail);
    hide SeedPart, Block;
    BlockIndex(SEED_START, seed, SEED_END, tail);
    var pre := FileSplits(jwt, seed);
    BlockField(pre, SEED_START, seed, SEED_END, tail);
  }

  /** A JWT holding none of the three markers that are looked for behind it. */
  predicate CleanJwt(jwt: string) {
    Absent(jwt, JWT_END) && Absent(jwt, SEED_START) && Absent(jwt, SEED_END)
  }

  predicate CleanSeed(seed: string) {
    Absent(seed, SEED_END)
  }

  predicate RoundTrips(jwt: string, seed: string) {
    Parse(CredsFile(jwt, seed)) == Credentials(Trimmed(jwt), Trimmed(seed))
  }

  /** Parsing the printed file gives the JWT and the seed back, trimmed. */
  lemma CredsRoundTrip(jwt: string, seed: string)
    requires CleanJwt(jwt) && CleanSeed(seed) && Trimmed(jwt) != "" && Trimmed(seed) != ""
    ensures RoundTrips(jwt, seed)
  {
    hide CredsFile;
    JwtField(jwt, seed);
    SeedField(jwt, seed);
  }
}
