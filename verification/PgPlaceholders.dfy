/** Positional placeholders rewritten for Postgres (worker/src/db.ts, `toPgPlaceholders`). */
module PgPlaceholders {
  predicate IsDigit(c: char) {
    '0' <= c <= '9'
  }

  function Digit(d: nat): char
    requires d < 10
  {
    d as char + '0'
  }

  function DigitValue(c: char): nat
    requires IsDigit(c)
  {
    (c - '0') as nat
  }

  /** A number in decimal. */
  function Decimal(n: nat): (s: string)
    ensures s != "" && forall c <- s :: IsDigit(c)
  {
    if n < 10 then [Digit(n)] else Decimal(n / 10) + [Digit(n % 10)]
  }

  // ── the rewriting ──────────────────────────────────────────────────────────

  /** Inside a single-quoted literal after these characters. */
  predicate InLiteral(s: string) {
    s != "" && (if s[|s| - 1] == '\'' then !InLiteral(s[..|s| - 1]) else InLiteral(s[..|s| - 1]))
  }

  /** The unquoted marks. */
  function Marks(s: string): nat {
    if s == "" then 0
    else Marks(s[..|s| - 1]) + (if s[|s| - 1] == '?' && !InLiteral(s[..|s| - 1]) then 1 else 0)
  }

  function ToPg(s: string): string {
    if s == "" then ""
    else
      var front, c := s[..|s| - 1], s[|s| - 1];
      ToPg(front) + if c == '?' && !InLiteral(front) then "$" + Decimal(Marks(front) + 1) else [c]
  }

  method ToPgPlaceholders(sql: string) returns (out: string)
    ensures out == ToPg(sql)
  {
    out := "";
    var n := 0;
    var inStr := false;
    for i := 0 to |sql|
      invariant out == ToPg(sql[..i])
      invariant n == Marks(sql[..i]) && inStr == InLiteral(sql[..i])
    {
      var ch := sql[i];
      assert sql[..i + 1][..i] == sql[..i];
      if ch == '\'' {
        inStr := !inStr;
        out := out + [ch];
        continue;
      }
      if ch == '?' && !inStr {
        n := n + 1;
        out := out + ("$" + Decimal(n));
        continue;
      }
      out := out + [ch];
    }
    assert sql[..|sql|] == sql;
  }

  // ── reading a Postgres statement back ──────────────────────────────────────

  /** Just after a `$`, within its number, or neither. */
  datatype Mode = Plain | Dollar | Number

  /** A statement read so far: its text with every `$n` outside a literal put back as a
    * mark, and the numbers those carried, in order. */
  datatype Reading = Reading(text: string, params: seq<nat>, inStr: bool, mode: Mode)

  const BLANK := Reading("", [], false, Plain)

  function ReadDigit(r: Reading, c: char): Reading
    requires IsDigit(c)
  {
    if r.mode.Dollar? && r.text != "" then
      Reading(r.text[..|r.text| - 1] + ['?'], r.params + [DigitValue(c)], r.inStr, Number)
    else if r.mode.Number? && r.params != [] then
      var k := |r.params| - 1;
      r.(params := r.params[k := r.params[k] * 10 + DigitValue(c)])
    else r.(text := r.text + [c], mode := Plain)
  }

  function ReadChar(r: Reading, c: char): Reading {
    if r.inStr then r.(text := r.text + [c], inStr := c != '\'', mode := Plain)
    else if IsDigit(c) then ReadDigit(r, c)
    else Reading(r.text + [c], r.params, c == '\'', if c == '$' then Dollar else Plain)
  }

  function ReadFrom(r: Reading, s: string): Reading {
    if s == "" then r else ReadChar(ReadFrom(r, s[..|s| - 1]), s[|s| - 1])
  }

  function Read(s: string): Reading {
    ReadFrom(BLANK, s)
  }

  lemma {:induction false} ReadInPieces(r: Reading, a: string, b: string)
    ensures ReadFrom(r, a + b) == ReadFrom(ReadFrom(r, a), b)
  {
    if b == "" {
      assert a + b == a;
    } else {
      assert (a + b)[..|a + b| - 1] == a + b[..|b| - 1];
      ReadInPieces(r, a, b[..|b| - 1]);
    }
  }

  /** One more digit of a number being read. */
  lemma ReadNextDigit(r: Reading, m: nat, d: nat)
    requires d < 10
    ensures ReadChar(Reading(r.text + ['?'], r.params + [m], false, Number), Digit(d)) ==
            Reading(r.text + ['?'], r.params + [m * 10 + d], false, Number)
  {
    assert (r.params + [m])[|r.params| := m * 10 + d] == r.params + [m * 10 + d];
  }

  lemma ReadFirstDigit(r: Reading, d: nat)
    requires !r.inStr && d < 10
    ensures ReadChar(ReadChar(r, '$'), Digit(d)) == Reading(r.text + ['?'], r.params + [d], false, Number)
  {
    assert (r.text + ['$'])[..|r.text|] == r.text;
  }

  lemma ReadOneMore(r: Reading, s: string, c: char)
    ensures ReadFrom(r, s + [c]) == ReadChar(ReadFrom(r, s), c)
  {
    assert (s + [c])[..|s|] == s;
  }

  /** A `$` and a number read back as one mark carrying that number. */
  lemma {:induction false} ReadNumber(r: Reading, n: nat)
    requires !r.inStr
    ensures ReadFrom(r, "$" + Decimal(n)) == Reading(r.text + ['?'], r.params + [n], false, Number)
  {
    if n < 10 {
      assert "$" + Decimal(n) == "$" + [Digit(n)] && "$" == "" + ['$'];
      ReadOneMore(r, "", '$');
      ReadOneMore(r, "$", Digit(n));
      ReadFirstDigit(r, n);
    } else {
      ReadNumber(r, n / 10);
      assert "$" + Decimal(n) == ("$" + Decimal(n / 10)) + [Digit(n % 10)];
      ReadOneMore(r, "$" + Decimal(n / 10), Digit(n % 10));
      ReadNextDigit(r, n / 10, n % 10);
    }
  }

  // ── what the rewriting loses ───────────────────────────────────────────────

  /** What reading the rewritten statement gives, told from the statement itself: a mark is
    * read as its number, and digits right after it run into that number. */
  function Shadow(s: string): Reading {
    if s == "" then BLANK
    else
      var front, c := s[..|s| - 1], s[|s| - 1];
      ShadowStep(Shadow(front), c, Marks(front) + 1)
  }

  function ShadowStep(r: Reading, c: char, mark: nat): Reading {
    if c == '?' && !r.inStr then Reading(r.text + ['?'], r.params + [mark], false, Number) else ReadChar(r, c)
  }

  lemma {:induction false} ShadowKnowsLiterals(s: string)
    ensures Shadow(s).inStr == InLiteral(s)
  {
    if s != "" {
      ShadowKnowsLiterals(s[..|s| - 1]);
    }
  }

  lemma {:induction false} ReadingIsTheShadow(s: string)
    ensures Read(ToPg(s)) == Shadow(s)
  {
    if s != "" {
      var front, c := s[..|s| - 1], s[|s| - 1];
      ReadingIsTheShadow(front);
      ShadowKnowsLiterals(front);
      if c == '?' && !InLiteral(front) {
        ReadInPieces(BLANK, ToPg(front), "$" + Decimal(Marks(front) + 1));
        ReadNumber(Read(ToPg(front)), Marks(front) + 1);
      } else {
        ReadInPieces(BLANK, ToPg(front), [c]);
        assert [c][..0] == "";
        assert ReadFrom(Shadow(front), [c]) == ReadChar(ReadFrom(Shadow(front), ""), c);
      }
    }
  }

  /** Outside literals no mark and no `$` stands right before a digit. */
  predicate Separated(s: string) {
    forall i | 0 <= i < |s| - 1 :: !(Opens(s, i) && IsDigit(s[i + 1]))
  }

  predicate Opens(s: string, i: nat)
    requires i < |s|
  {
    (s[i] == '?' || s[i] == '$') && !InLiteral(s[..i])
  }

  function UpTo(n: nat): seq<nat> {
    seq(n, i => i + 1)
  }

  lemma SeparatedFront(s: string)
    requires s != ""
    ensures var n := |s| - 1;
            Separated(s) <==> Separated(s[..n]) && (n > 0 ==> !(Opens(s[..n], n - 1) && IsDigit(s[n])))
  {
    var n := |s| - 1;
    forall i | 0 <= i < n
      ensures Opens(s[..n], i) == Opens(s, i)
    {
      assert s[..n][..i] == s[..i];
    }
    if Separated(s) {
      forall i | 0 <= i < n - 1
        ensures !(Opens(s[..n], i) && IsDigit(s[..n][i + 1]))
      {
        assert Opens(s[..n], i) == Opens(s, i);
      }
    }
    if Separated(s[..n]) && (n > 0 ==> !(Opens(s[..n], n - 1) && IsDigit(s[n]))) {
      forall i | 0 <= i < n
        ensures !(Opens(s, i) && IsDigit(s[i + 1]))
      {
        assert Opens(s[..n], i) == Opens(s, i);
        assert i < n - 1 ==> s[..n][i + 1] == s[i + 1];
      }
    }
  }

  /** A reading that kept the text and counted the marks of `s`. */
  ghost predicate Keeps(r: Reading, s: string) {
    && r.text == s && r.params == UpTo(Marks(s)) && r.inStr == InLiteral(s)
    && (r.mode.Plain? <==> s == "" || !Opens(s, |s| - 1))
    && (r.mode.Dollar? <==> s != "" && Opens(s, |s| - 1) && s[|s| - 1] == '$')
    && (r.mode.Number? ==> r.params != [])
  }

  /** One more character is kept, unless it runs into what came before. */
  lemma KeepsOneMore(r: Reading, front: string, c: char)
    requires Keeps(r, front)
    ensures var q := ShadowStep(r, c, Marks(front) + 1);
            if r.mode.Plain? || !IsDigit(c) then Keeps(q, front + [c]) else |q.text| < |front| + 1
  {
    var s := front + [c];
    assert s[..|front|] == front && s[|front|] == c;
    assert UpTo(Marks(front) + 1) == UpTo(Marks(front)) + [Marks(front) + 1];
    if r.mode.Dollar? {
      assert front != "";
    }
  }

  lemma TextGrowsByAtMostOne(r: Reading, c: char, mark: nat)
    ensures |ShadowStep(r, c, mark).text| <= |r.text| + 1
  {
  }

  /** The shadow keeps the text and counts the marks while nothing runs together. */
  lemma {:induction false} ShadowKeeps(s: string)
    requires Separated(s)
    ensures Keeps(Shadow(s), s)
  {
    if s != "" {
      var front, c := s[..|s| - 1], s[|s| - 1];
      SeparatedFront(s);
      ShadowKeeps(front);
      assert front + [c] == s;
      KeepsOneMore(Shadow(front), front, c);
    }
  }

  /** And it is shorter from the first place where something does. */
  lemma {:induction false} ShadowIsShorter(s: string)
    ensures |Shadow(s).text| <= |s|
    ensures !Separated(s) ==> |Shadow(s).text| < |s|
  {
    if s != "" {
      var front, c := s[..|s| - 1], s[|s| - 1];
      ShadowIsShorter(front);
      SeparatedFront(s);
      assert front + [c] == s;
      TextGrowsByAtMostOne(Shadow(front), c, Marks(front) + 1);
      if Separated(front) {
        ShadowKeeps(front);
        KeepsOneMore(Shadow(front), front, c);
      }
    }
  }

  /** Reading the rewritten statement back gives the statement itself, its marks numbered
    * 1, 2, … in order, exactly when no unquoted mark and no unquoted `$` stands right before
    * a digit. Literals are never touched either way. */
  lemma RewritingIsInvertibleIff(s: string)
    ensures Read(ToPg(s)).text == s && Read(ToPg(s)).params == UpTo(Marks(s)) <==> Separated(s)
  {
    ReadingIsTheShadow(s);
    if Separated(s) { ShadowKeeps(s); }
    ShadowIsShorter(s);
  }

  // ── literals ───────────────────────────────────────────────────────────────

  /** The quoted part of a statement, quotes included. */
  function Quoted(s: string): string {
    if s == "" then ""
    else
      var front, c := s[..|s| - 1], s[|s| - 1];
      Quoted(front) + if InLiteral(front) || c == '\'' then [c] else ""
  }

  lemma {:induction false} QuotedInPieces(a: string, b: string)
    requires '\'' !in b
    requires !InLiteral(a)
    ensures Quoted(a + b) == Quoted(a) && !InLiteral(a + b)
  {
    if b == "" {
      assert a + b == a;
    } else {
      assert (a + b)[..|a + b| - 1] == a + b[..|b| - 1];
      assert b == b[..|b| - 1] + [b[|b| - 1]];
      QuotedInPieces(a, b[..|b| - 1]);
    }
  }

  lemma {:induction false} InsideInPieces(a: string, b: string)
    requires '\'' !in b
    requires InLiteral(a)
    ensures Quoted(a + b) == Quoted(a) + b && InLiteral(a + b)
  {
    if b == "" {
      assert a + b == a && Quoted(a) + b == Quoted(a);
    } else {
      assert (a + b)[..|a + b| - 1] == a + b[..|b| - 1];
      assert b == b[..|b| - 1] + [b[|b| - 1]];
      InsideInPieces(a, b[..|b| - 1]);
    }
  }

  /** The quoted part is the literals one after the other: text between them is no part of
    * it, and a literal is, whole and with its quotes. */
  lemma LiteralIsQuoted(before: string, text: string, literal: string)
    requires !InLiteral(before) && '\'' !in text && '\'' !in literal
    ensures Quoted(before + text + ['\''] + literal + ['\'']) == Quoted(before) + ['\''] + literal + ['\'']
  {
    QuotedInPieces(before, text);
    var upTo := before + text + ['\''];
    assert upTo[..|upTo| - 1] == before + text;
    InsideInPieces(upTo, literal);
    var all := upTo + literal + ['\''];
    assert all[..|all| - 1] == upTo + literal;
  }

  /** Every literal comes through as it was written, marks and all. */
  lemma {:induction false} LiteralsAreKept(s: string)
    ensures Quoted(ToPg(s)) == Quoted(s) && InLiteral(ToPg(s)) == InLiteral(s)
  {
    if s != "" {
      var front, c := s[..|s| - 1], s[|s| - 1];
      LiteralsAreKept(front);
      if c == '?' && !InLiteral(front) {
        QuotedInPieces(ToPg(front), "$" + Decimal(Marks(front) + 1));
      } else {
        assert ToPg(s)[..|ToPg(s)| - 1] == ToPg(front);
      }
    }
  }
}
