/** The credentials file, line by line, as the NATS tools write and read it. */
module CredsText {
  import opened Text
  import opened Creds

  lemma Markers()
    ensures JWT_START == "-----BEGIN NATS USER JWT-----" && JWT_END == "------END NATS USER JWT------"
    ensures SEED_START == "-----BEGIN USER NKEY SEED-----" && SEED_END == "------END USER NKEY SEED------"
  {
  }

  lemma Line(line: string, rest: seq<string>)
    ensures Terminated([line] + rest) == line + "\n" + Terminated(rest)
  {
    assert ([line] + rest)[1..] == rest;
  }

  /** The lines of the file, as they stand in it. */
  function Printed(jwt: string, seed: string): seq<string> {
    ["-----BEGIN NATS USER JWT-----"] + ([jwt] + (["------END NATS USER JWT------"] + ([""] + Notice(seed))))
  }

  function Notice(seed: string): seq<string> {
    ["*************************" + " IMPORTANT " + "*************************"]
    + (["NKEY Seed printed " + "below can be used " + "to sign and prove " + "identity."]
       + (["NKEYs are sensitive " + "and should be " + "treated as secrets."] + ([""] + SeedBlock(seed))))
  }

  function SeedBlock(seed: string): seq<string> {
    ["-----BEGIN USER NKEY SEED-----"]
    + ([seed] + (["------END USER NKEY SEED------"]
                 + ([""] + ["*************************" + "***********" + "*************************"])))
  }

  lemma SeedLines(seed: string)
    ensures SeedPart(seed) == Terminated(SeedBlock(seed))
  {
    Markers();
    var rule := [RULE];
    assert rule == [RULE] + [];
    Line(RULE, []);
    hide Terminated;
    assert RULE + "\n" + "" == RULE + "\n";
    Line("", rule);
    Line(SEED_END, [""] + rule);
    Line(seed, [SEED_END] + ([""] + rule));
    Line(SEED_START, [seed] + ([SEED_END] + ([""] + rule)));
  }

  lemma NoticeLines(seed: string)
    ensures AfterJwt(seed) == Terminated([""] + Notice(seed))
  {
    SeedLines(seed);
    var part := SeedBlock(seed);
    hide SeedPart, SeedBlock, Terminated;
    Line("", part);
    Line(NOTICE_SECRET, [""] + part);
    Line(NOTICE_USE, [NOTICE_SECRET] + ([""] + part));
    Line(NOTICE, [NOTICE_USE] + ([NOTICE_SECRET] + ([""] + part)));
    Line("", Notice(seed));
  }

  /** The printed file is exactly these lines, each ended by a newline. */
  lemma FileLines(jwt: string, seed: string)
    ensures CredsFile(jwt, seed) == Terminated(Printed(jwt, seed))
  {
    Markers();
    NoticeLines(seed);
    var after := [""] + Notice(seed);
    hide AfterJwt, Notice, Terminated;
    Line(JWT_END, after);
    Line(jwt, [JWT_END] + after);
    Line(JWT_START, [jwt] + ([JWT_END] + after));
  }

  // Which texts are read, and as what.

  predicate FirstAt(s: string, m: string, i: int) {
    OccursAt(s, m, i) && forall j | 0 <= j < i :: !OccursAt(s, m, j)
  }

  predicate Occurs(s: string, m: string) {
    exists i | 0 <= i <= |s| :: OccursAt(s, m, i)
  }

  lemma IndexIsFirst(s: string, m: string)
    ensures Index(s, m) >= 0 ==> FirstAt(s, m, Index(s, m))
    ensures forall i | FirstAt(s, m, i) :: 0 <= i <= |s| - |m| && Index(s, m) == i
    ensures Index(s, m) >= 0 <==> Occurs(s, m)
  {
    IndexFromLeast(s, m, 0);
  }

  /** `x` is the text without the whitespace around it. */
  ghost predicate Stripped(text: string, x: string) {
    Tight(x) && exists l, r | Blank(l) && Blank(r) :: text == l + x + r
  }

  /** `x` is what stands between the first occurrences of the markers, without the whitespace around it. */
  ghost predicate Enclosed(s: string, a: string, b: string, x: string) {
    exists i, j | FirstAt(s, a, i) && FirstAt(s, b, j) :: i + |a| <= j && Stripped(s[i + |a|..j], x)
  }

  ghost predicate Reversed(s: string, a: string, b: string) {
    exists i, j :: FirstAt(s, a, i) && FirstAt(s, b, j) && j < i + |a|
  }

  lemma StrippedIs(text: string, x: string)
    ensures Stripped(text, x) <==> x == Trimmed(text)
  {
    hide Trimmed, Blank, Tight;
    var l, r := TrimmedSplits(text);
    if Stripped(text, x) {
      var l', r' :| Blank(l') && Blank(r') && text == l' + x + r';
      TrimmedIs(l', x, r');
    }
  }

  lemma BetweenIs(s: string, a: string, b: string)
    ensures forall x :: Between(s, a, b) == Found(x) <==> Enclosed(s, a, b, x)
    ensures Between(s, a, b) == Crossed <==> Reversed(s, a, b)
    ensures Between(s, a, b) == Missing <==> !Occurs(s, a) || !Occurs(s, b)
  {
    hide Trimmed, Index, FirstAt, Occurs, Stripped;
    IndexIsFirst(s, a);
    IndexIsFirst(s, b);
    var i, j := Index(s, a), Index(s, b);
    if i >= 0 && j >= 0 {
      assert FirstAt(s, a, i) && FirstAt(s, b, j);
      if i + |a| <= j {
        var text := s[i + |a|..j];
        forall x ensures Stripped(text, x) <==> x == Trimmed(text) {
          StrippedIs(text, x);
        }
      }
    }
  }

  /** The exact reading, of any text: credentials are what the two pairs of markers enclose, if neither is
      empty; the first pair out of order, or the second behind a good first one, is the slice that panics. */
  lemma ParseIff(s: string, jwt: string, seed: string)
    ensures Parse(s) == Credentials(jwt, seed) <==>
              && jwt != "" && seed != ""
              && Enclosed(s, "-----BEGIN NATS USER JWT-----", "------END NATS USER JWT------", jwt)
              && Enclosed(s, "-----BEGIN USER NKEY SEED-----", "------END USER NKEY SEED------", seed)
    ensures Parse(s) == Panic <==>
              || Reversed(s, JWT_START, JWT_END)
              || (Occurs(s, JWT_START) && Occurs(s, JWT_END) && Reversed(s, SEED_START, SEED_END))
  {
    hide Between, Enclosed, Reversed, Occurs;
    Markers();
    BetweenIs(s, JWT_START, JWT_END);
    BetweenIs(s, SEED_START, SEED_END);
  }
}
