/** The printed `.creds` file is made of single-byte characters, so its bytes give it back. */
module CredsBytes {
  import opened Creds
  import opened Sealing

  lemma JoinedOneByte(a: string, b: string)
    requires OneByte(a) && OneByte(b)
    ensures OneByte(a + b) && OneByte(a + "\n" + b)
  {
  }

  lemma JwtStartOneByte()
    ensures OneByte(JWT_START)
  {
  }

  lemma JwtEndOneByte()
    ensures OneByte(JWT_END)
  {
  }

  lemma SeedStartOneByte()
    ensures OneByte(SEED_START)
  {
  }

  lemma SeedEndOneByte()
    ensures OneByte(SEED_END)
  {
  }

  lemma RuleOneByte()
    ensures OneByte(STARS) && OneByte(NOTICE) && OneByte(RULE)
  {
    JoinedOneByte(STARS, " IMPORTANT ");
    JoinedOneByte(STARS, "***********");
  }

  lemma NoticeUseOneByte()
    ensures OneByte(NOTICE_USE)
  {
    JoinedOneByte("NKEY Seed printed ", "below can be used ");
  }

  lemma NoticeSecretOneByte()
    ensures OneByte(NOTICE_SECRET)
  {
    JoinedOneByte("NKEYs are sensitive ", "and should be ");
  }

  lemma SeedPartOneByte(seed: string)
    requires OneByte(seed)
    ensures OneByte(SeedPart(seed))
  {
    SeedStartOneByte();
    SeedEndOneByte();
    RuleOneByte();
    JoinedOneByte(RULE, "");
    assert RULE + "\n" + "" == RULE + "\n";
    JoinedOneByte("", RULE + "\n");
    JoinedOneByte(SEED_END, "" + "\n" + (RULE + "\n"));
    JoinedOneByte(seed, SEED_END + "\n" + ("" + "\n" + (RULE + "\n")));
    JoinedOneByte(SEED_START, seed + "\n" + (SEED_END + "\n" + ("" + "\n" + (RULE + "\n"))));
  }

  lemma AfterJwtOneByte(seed: string)
    requires OneByte(seed)
    ensures OneByte(AfterJwt(seed))
  {
    hide SeedPart;
    SeedPartOneByte(seed);
    RuleOneByte();
    NoticeUseOneByte();
    NoticeSecretOneByte();
    var d := "" + "\n" + SeedPart(seed);
    var c := NOTICE_SECRET + "\n" + d;
    var b := NOTICE_USE + "\n" + c;
    JoinedOneByte("", SeedPart(seed));
    JoinedOneByte(NOTICE_SECRET, d);
    JoinedOneByte(NOTICE_USE, c);
    JoinedOneByte(NOTICE, b);
    JoinedOneByte("", NOTICE + "\n" + b);
  }

  lemma FileOneByte(jwt: string, seed: string)
    requires OneByte(jwt) && OneByte(seed)
    ensures OneByte(CredsFile(jwt, seed))
  {
    hide AfterJwt;
    JwtStartOneByte();
    JwtEndOneByte();
    AfterJwtOneByte(seed);
    JoinedOneByte(JWT_END, AfterJwt(seed));
    JoinedOneByte(jwt, JWT_END + "\n" + AfterJwt(seed));
    JoinedOneByte(JWT_START, jwt + "\n" + (JWT_END + "\n" + AfterJwt(seed)));
  }
}
