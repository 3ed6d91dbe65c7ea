/** Exactly which JWTs and which seeds survive the `.creds` file. */
module CredsExact {
  import opened Text
  import opened Creds

  /** What encoders produce: some text, and no whitespace in it. */
  predicate Plain(s: string) {
    s != "" && forall c | c in s :: !IsWhitespace(c)
  }

  lemma PlainAbsent(s: string, m: string, i: nat)
    requires Plain(s) && i < |m| && m[i] == ' '
    ensures Absent(s, m)
  {
    forall j ensures !OccursAt(s, m, j) {
      if 0 <= j && j + |m| <= |s| {
        assert s[j..j + |m|][i] == s[j + i];
        assert s[j + i] in s;
      }
    }
    IndexIs(s, m, -1);
  }

  /** Every encoded JWT and seed comes back from the file unchanged. */
  lemma PlainRoundTrip(jwt: string, seed: string)
    requires Plain(jwt) && Plain(seed)
    ensures Parse(CredsFile(jwt, seed)) == Credentials(jwt, seed)
  {
    hide CredsFile, Parse, Trimmed, Index;
    Spaces();
    PlainAbsent(jwt, JWT_END, 9);
    PlainAbsent(jwt, SEED_START, 10);
    PlainAbsent(jwt, SEED_END, 9);
    PlainAbsent(seed, SEED_END, 9);
    PlainTrimmed(jwt);
    PlainTrimmed(seed);
    CredsRoundTrip(jwt, seed);
  }

  lemma Spaces()
    ensures |JWT_END| == 29 && JWT_END[9] == ' ' && |SEED_START| == 30 && SEED_START[10] == ' '
    ensures |SEED_END| == 30 && SEED_END[9] == ' '
  {
  }

  lemma PlainTrimmed(s: string)
    requires Plain(s)
    ensures Trimmed(s) == s
  {
    assert s[0] in s && s[|s| - 1] in s;
    TrimmedIs("", s, "");
    assert "" + s + "" == s;
  }

  // Beyond encoded texts: a marker inside the JWT or the seed breaks the file.

  /** A character that is not whitespace is not in the blank padding. */
  lemma InMiddle(a: string, t: string, b: string, k: nat)
    requires Blank(a) && Blank(b) && k < |a + t + b| && !IsWhitespace((a + t + b)[k])
    ensures |a| <= k < |a| + |t|
  {
    var s := a + t + b;
    forall i | 0 <= i < |a| ensures IsWhitespace(s[i]) {
      assert s[i] == a[i] && a[i] in a;
    }
    forall i | |a| + |t| <= i < |s| ensures IsWhitespace(s[i]) {
      assert s[i] == b[i - |a| - |t|] && s[i] in b;
    }
  }

  /** Trimming keeps everything between two characters that are not whitespace. */
  lemma TrimmedKeeps(s: string, i: nat, j: nat)
    requires i <= j < |s| && !IsWhitespace(s[i]) && !IsWhitespace(s[j])
    ensures |Trimmed(s)| >= j - i + 1
  {
    var a, b := TrimmedSplits(s);
    InMiddle(a, Trimmed(s), b, i);
    InMiddle(a, Trimmed(s), b, j);
  }

  lemma TrimmedShorter(s: string)
    ensures |Trimmed(s)| <= |s|
  {
    var a, b := TrimmedSplits(s);
  }

  /** Cutting a text at a marker that it holds changes what is left after trimming. */
  lemma CutDiffers(x: string, m: string, q: nat)
    requires OccursAt(x, m, q) && m != "" && Tight(m)
    ensures Trimmed("\n" + x[..q]) != Trimmed(x)
  {
    var a, b := TrimmedSplits(x);
    var t := Trimmed(x);
    assert x[q] == x[q..q + |m|][0];
    InMiddle(a, t, b, q);
    assert "\n" + x[..q] == ("\n" + a) + t[..q - |a|] + "";
    TrimmedPadded("\n" + a, t[..q - |a|], "");
    TrimmedShorter(t[..q - |a|]);
  }

  lemma IndexInLine(left: string, right: string, m: string)
    requires Index(left, m) >= 0
    ensures Index(left + "\n" + right, m) == Index(left, m)
  {
    var r := Index(left, m);
    IndexFromLeast(left, m, 0);
    var s := left + "\n" + right;
    assert s[r..r + |m|] == left[r..r + |m|];
    forall j | 0 <= j < r ensures !OccursAt(s, m, j) {
      assert s[j..j + |m|] == left[j..j + |m|];
      assert !OccursAt(left, m, j);
    }
    IndexIs(s, m, r);
  }

  /** A block whose text holds the end marker loses it and what follows. */
  lemma BlockCut(pre: string, a: string, x: string, m: string, rest: string, q: nat)
    requires Index(pre + Block(a, x, m, rest), a) == |pre|
    requires Index(pre + Block(a, x, m, rest), m) == |pre| + |a| + 1 + q && OccursAt(x, m, q) && m != "" && Tight(m)
    ensures Between(pre + Block(a, x, m, rest), a, m) == Found(Trimmed("\n" + x[..q]))
    ensures Trimmed("\n" + x[..q]) != Trimmed(x)
  {
    var f := pre + Block(a, x, m, rest);
    assert x == x[..q] + x[q..];
    assert f == (pre + a) + ("\n" + x[..q]) + (x[q..] + "\n" + (m + "\n" + rest));
    assert f[|pre| + |a|..|pre| + |a| + 1 + q] == "\n" + x[..q];
    CutDiffers(x, m, q);
  }

  lemma JwtCut(jwt: string, seed: string)
    requires !Absent(jwt, JWT_END)
    ensures !RoundTrips(jwt, seed)
  {
    hide Between, AfterJwt, Index, Trimmed;
    JwtEndMarker();
    var q := Index(jwt, JWT_END);
    IndexFromLeast(jwt, JWT_END, 0);
    FirstIndex(jwt, JWT_END);
    var block := Block(JWT_START, jwt, JWT_END, AfterJwt(seed));
    assert CredsFile(jwt, seed) == block;
    TightJwtEnd();
    hide CredsFile;
    NotInLine(JWT_START, JWT_END);
    IndexInLine(jwt, JWT_END + "\n" + AfterJwt(seed), JWT_END);
    IndexSkipsLine(JWT_START, jwt + "\n" + (JWT_END + "\n" + AfterJwt(seed)), JWT_END);
    StartOfBlock(JWT_START, jwt, JWT_END, AfterJwt(seed));
    hide Block;
    assert "" + block == block;
    BlockCut("", JWT_START, jwt, JWT_END, AfterJwt(seed), q);
  }

  lemma FirstIndex(s: string, m: string)
    ensures Index(s, m) >= 0 ==> OccursAt(s, m, Index(s, m))
  {
    IndexFromLeast(s, m, 0);
  }

  lemma StartOfBlock(a: string, x: string, m: string, rest: string)
    ensures Index(Block(a, x, m, rest), a) == 0
  {
    assert Block(a, x, m, rest) == a + ("\n" + (x + "\n" + (m + "\n" + rest)));
    IndexAtStart(a, "\n" + (x + "\n" + (m + "\n" + rest)));
  }

  lemma TightJwtEnd()
    ensures Tight(JWT_END)
  {
    assert |JWT_END| == 29 && JWT_END[0] == '-' && JWT_END[28] == '-';
  }

  lemma SeedCut(jwt: string, seed: string)
    requires Absent(jwt, SEED_START) && Absent(jwt, SEED_END) && !Absent(seed, SEED_END)
    ensures !RoundTrips(jwt, seed)
  {
    hide Between, Index, Trimmed, CredsFile;
    var tail := "" + "\n" + (RULE + "\n");
    SeedStartMarker();
    SeedEndMarker();
    TightSeedEnd();
    var q := Index(seed, SEED_END);
    FirstIndex(seed, SEED_END);
    HeadSkipped(jwt, seed, SEED_START);
    HeadSkipped(jwt, seed, SEED_END);
    assert SeedPart(seed) == Block(SEED_START, seed, SEED_END, tail);
    StartOfBlock(SEED_START, seed, SEED_END, tail);
    NotInLine(SEED_START, SEED_END);
    IndexInLine(seed, SEED_END + "\n" + tail, SEED_END);
    IndexSkipsLine(SEED_START, seed + "\n" + (SEED_END + "\n" + tail), SEED_END);
    var pre := FileSplits(jwt, seed);
    hide SeedPart, Block;
    BlockCut(pre, SEED_START, seed, SEED_END, tail, q);
  }

  lemma TightSeedEnd()
    ensures Tight(SEED_END)
  {
    assert |SEED_END| == 30 && SEED_END[0] == '-' && SEED_END[29] == '-';
  }

  /** A seed survives next to every clean JWT if and only if it does not hold the seed's end marker. */
  lemma CleanSeedIff(seed: string)
    requires Trimmed(seed) != ""
    ensures (forall jwt | CleanJwt(jwt) && Trimmed(jwt) != "" :: RoundTrips(jwt, seed)) <==> CleanSeed(seed)
  {
    hide RoundTrips, Index, Trimmed;
    if CleanSeed(seed) {
      forall jwt | CleanJwt(jwt) && Trimmed(jwt) != "" ensures RoundTrips(jwt, seed) {
        CredsRoundTrip(jwt, seed);
      }
    } else {
      PlainClean("J");
      SeedCut("J", seed);
    }
  }

  lemma PlainClean(s: string)
    requires Plain(s)
    ensures CleanJwt(s) && CleanSeed(s) && Trimmed(s) == s
  {
    Spaces();
    PlainAbsent(s, JWT_END, 9);
    PlainAbsent(s, SEED_START, 10);
    PlainAbsent(s, SEED_END, 9);
    PlainTrimmed(s);
  }

  // A JWT that holds a seed marker.

  /** The JWT's own lines come before the seed part. */
  lemma IndexInJwt(jwt: string, seed: string, m: string)
    requires Index(jwt, m) >= 0 && OneLine(m) && m != "" && m[0] == '-' && |m| == 30
    ensures Index(CredsFile(jwt, seed), m) == 30 + Index(jwt, m)
  {
    JwtEndMarker();
    NotInLine(JWT_START, m);
    IndexInLine(jwt, JWT_END + "\n" + AfterJwt(seed), m);
    IndexSkipsLine(JWT_START, jwt + "\n" + (JWT_END + "\n" + AfterJwt(seed)), m);
  }

  lemma SeedPartIndex(seed: string)
    requires Absent(seed, SEED_END)
    ensures Index(SeedPart(seed), SEED_START) == 0 && Index(SeedPart(seed), SEED_END) == 30 + |seed| + 2
  {
    SeedStartMarker();
    SeedEndMarker();
    BlockIndex(SEED_START, seed, SEED_END, "" + "\n" + (RULE + "\n"));
  }

  /** With both seed markers inside, the parser never looks at the real seed. */
  lemma BothInside(jwt: string, seed: string)
    requires !Absent(jwt, SEED_START) && !Absent(jwt, SEED_END)
    ensures var q, e := Index(jwt, SEED_START), Index(jwt, SEED_END);
            Between(CredsFile(jwt, seed), SEED_START, SEED_END)
            == if q + 30 > e then Crossed else if e > |jwt| then Crossed else Found(Trimmed(jwt[q + 30..e]))
  {
    hide Index, Trimmed, CredsFile, AfterJwt;
    SeedStartMarker();
    SeedEndMarker();
    IndexInJwt(jwt, seed, SEED_START);
    IndexInJwt(jwt, seed, SEED_END);
    var q, e := Index(jwt, SEED_START), Index(jwt, SEED_END);
    FirstIndex(jwt, SEED_END);
    FileFrom(jwt, seed);
    if q + 30 <= e {
      JwtSlice(jwt, JWT_END + "\n" + AfterJwt(seed), q + 30, e);
    }
  }

  lemma FileFrom(jwt: string, seed: string)
    ensures |JWT_START| == 29 && |CredsFile(jwt, seed)| >= 30 + |jwt|
    ensures CredsFile(jwt, seed) == JWT_START + "\n" + (jwt + "\n" + (JWT_END + "\n" + AfterJwt(seed)))
  {
    hide AfterJwt;
    JwtEndMarker();
  }

  lemma JwtSlice(jwt: string, rest: string, i: nat, j: nat)
    requires i <= j <= |jwt| && |JWT_START| == 29
    ensures (JWT_START + "\n" + (jwt + "\n" + rest))[30 + i..30 + j] == jwt[i..j]
  {
  }

  /** With only the end marker inside, the end precedes the start. */
  lemma EndInside(jwt: string, seed: string)
    requires Absent(jwt, SEED_START) && !Absent(jwt, SEED_END)
    ensures Between(CredsFile(jwt, seed), SEED_START, SEED_END) in {Crossed, Missing}
  {
    SeedStartMarker();
    SeedEndMarker();
    IndexInJwt(jwt, seed, SEED_END);
    HeadSkipped(jwt, seed, SEED_START);
    FirstIndex(jwt, SEED_END);
    JwtEndMarker();
    FileLength(jwt, seed);
  }

  lemma FileLength(jwt: string, seed: string)
    ensures |CredsFile(jwt, seed)| >= |SeedPart(seed)| + |jwt| + 61
  {
    JwtEndMarker();
    hide SeedPart;
  }

  /** With only the start marker inside, the lines after the JWT are taken into the seed. */
  lemma StartInside(jwt: string)
    requires !Absent(jwt, SEED_START) && Absent(jwt, SEED_END)
    ensures match Between(CredsFile(jwt, "S"), SEED_START, SEED_END)
            case Found(seed) => |seed| >= 29
            case _ => true
  {
    hide CredsFile, Index, SeedPart, Trimmed;
    StartInsideAt(jwt);
    JwtEndAt(jwt, "S");
    var f := CredsFile(jwt, "S");
    SliceHolds(f, Index(f, SEED_START) + 30, Index(f, SEED_END), 31 + |jwt|);
  }

  lemma SliceHolds(f: string, start: int, end: int, p: nat)
    requires 0 <= start <= p && p + 28 < |f| && !IsWhitespace(f[p]) && !IsWhitespace(f[p + 28])
    ensures p + 28 < end <= |f| ==> |Trimmed(f[start..end])| >= 29
  {
    hide Trimmed;
    if p + 28 < end <= |f| {
      var slice := f[start..end];
      assert slice[p - start] == f[p] && slice[p - start + 28] == f[p + 28];
      TrimmedKeeps(slice, p - start, p - start + 28);
    }
  }

  lemma StartInsideAt(jwt: string)
    requires !Absent(jwt, SEED_START) && Absent(jwt, SEED_END)
    ensures |SEED_START| == 30
    ensures var f := CredsFile(jwt, "S");
            0 <= Index(f, SEED_START) <= |jwt| && Index(f, SEED_END) >= |jwt| + 61
  {
    SeedStartMarker();
    SeedEndMarker();
    PlainClean("S");
    FirstIndex(jwt, SEED_START);
    IndexInJwt(jwt, "S", SEED_START);
    HeadSkipped(jwt, "S", SEED_END);
    SeedPartIndex("S");
    FileLength(jwt, "S");
  }

  lemma JwtEndAt(jwt: string, seed: string)
    ensures var f := CredsFile(jwt, seed);
            |f| >= 60 + |jwt| && f[31 + |jwt|] == '-' && f[31 + |jwt| + 28] == '-'
  {
    hide CredsFile, AfterJwt;
    FileFrom(jwt, seed);
    JwtEndDashes();
    HeadChar(JWT_START, jwt, JWT_END, "\n" + AfterJwt(seed), 0);
    HeadChar(JWT_START, jwt, JWT_END, "\n" + AfterJwt(seed), 28);
    assert JWT_END + "\n" + AfterJwt(seed) == JWT_END + ("\n" + AfterJwt(seed));
  }

  lemma JwtEndDashes()
    ensures |JWT_END| == 29 && JWT_END[0] == '-' && JWT_END[28] == '-'
  {
  }

  lemma HeadChar(a: string, x: string, m: string, rest: string, k: nat)
    requires k < |m|
    ensures (a + "\n" + (x + "\n" + (m + rest)))[|a| + 1 + |x| + 1 + k] == m[k]
  {
  }

  /** A JWT survives next to every clean seed if and only if it holds none of the three markers that
      are looked for behind it. */
  lemma CleanJwtIff(jwt: string)
    requires Trimmed(jwt) != ""
    ensures (forall seed | CleanSeed(seed) && Trimmed(seed) != "" :: RoundTrips(jwt, seed)) <==> CleanJwt(jwt)
  {
    hide CredsFile, Index, Trimmed, Between;
    PlainClean("S");
    PlainClean("T");
    if CleanJwt(jwt) {
      forall seed | CleanSeed(seed) && Trimmed(seed) != "" ensures RoundTrips(jwt, seed) {
        CredsRoundTrip(jwt, seed);
      }
    } else if !Absent(jwt, JWT_END) {
      JwtCut(jwt, "S");
    } else if Absent(jwt, SEED_START) {
      EndInside(jwt, "S");
      assert !RoundTrips(jwt, "S");
    } else if Absent(jwt, SEED_END) {
      StartInside(jwt);
      assert !RoundTrips(jwt, "S");
    } else {
      BothInside(jwt, "S");
      BothInside(jwt, "T");
      assert !RoundTrips(jwt, "S") || !RoundTrips(jwt, "T");
    }
  }
}
