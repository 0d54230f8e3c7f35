/** Snapshot names: the canonical shape, its parser, and what may be a path segment. */
module Names {
  import opened Basics
  import opened Manifests
  import Paths

  datatype Name = Name(chainId: nat, role: string, block: nat)

  predicate IsDigit(c: char) { '0' <= c <= '9' }

  predicate AllDigits(s: string) {
    forall i :: 0 <= i < |s| ==> IsDigit(s[i])
  }

  function Digit(d: nat): char
    requires d < 10
  {
    (48 + d) as char
  }

  function DigitValue(c: char): nat
    requires IsDigit(c)
  {
    c as int - 48
  }

  /** %d of an unsigned integer. */
  function Decimal(n: nat): string {
    if n < 10 then [Digit(n)] else Decimal(n / 10) + [Digit(n % 10)]
  }

  function DecimalValue(s: string): nat
    requires AllDigits(s)
  {
    if s == "" then 0 else DecimalValue(s[..|s| - 1]) * 10 + DigitValue(s[|s| - 1])
  }

  /** strconv.ParseUint(s, 10, 64) on a string of digits. */
  function ParseUint(s: string): Option<nat>
    requires AllDigits(s)
  {
    if s == "" || DecimalValue(s) >= TWO_64 then None else Some(DecimalValue(s))
  }

  function ToString(n: Name): string {
    "geth-" + (Decimal(n.chainId) + ("-" + n.role + "-" + Decimal(n.block)))
  }

  /** The leading digits of s. */
  function DigitPrefix(s: string): (d: string)
    ensures d <= s && AllDigits(d) && (|d| < |s| ==> !IsDigit(s[|d|]))
  {
    if s == "" || !IsDigit(s[0]) then "" else [s[0]] + DigitPrefix(s[1..])
  }

  datatype Groups = Groups(chain: string, role: string, block: string)

  /** The groups of ^geth-(\d+)-(archive|full)-(\d+)$, or None without a match. */
  function Match(s: string): Option<Groups> {
    if !("geth-" <= s) then None
    else
      var chain := DigitPrefix(s[5..]);
      if chain == "" then None else AfterChain(chain, s[5 + |chain|..])
  }

  function AfterChain(chain: string, rest: string): Option<Groups> {
    if "-archive-" <= rest then Tail(chain, "archive", rest[9..])
    else if "-full-" <= rest then Tail(chain, "full", rest[6..])
    else None
  }

  function Tail(chain: string, role: string, block: string): Option<Groups> {
    if block != "" && AllDigits(block) then Some(Groups(chain, role, block)) else None
  }

  function ParseName(s: string): Option<Name> {
    match Match(s)
    case None => None
    case Some(g) =>
      if !AllDigits(g.chain) || !AllDigits(g.block) then None
      else
        match (ParseUint(g.chain), ParseUint(g.block))
        case (Some(chainId), Some(block)) => Some(Name(chainId, g.role, block))
        case _ => None
  }

  /** s is in the language of the name pattern, with these groups. */
  predicate Shape(s: string, g: Groups) {
    && g.chain != "" && AllDigits(g.chain) && ValidRole(g.role) && g.block != "" && AllDigits(g.block)
    && s == "geth-" + (g.chain + ("-" + g.role + "-" + g.block))
  }

  lemma {:induction false} DigitPrefixIs(d: string, rest: string)
    requires AllDigits(d) && (rest != "" ==> !IsDigit(rest[0]))
    ensures DigitPrefix(d + rest) == d
  {
    if d == "" {
      assert d + rest == rest;
    } else {
      DigitPrefixIs(d[1..], rest);
      assert (d + rest)[1..] == d[1..] + rest;
      assert [d[0]] + d[1..] == d;
    }
  }

  lemma AfterChainIs(chain: string, role: string, block: string)
    requires ValidRole(role)
    ensures AfterChain(chain, "-" + role + "-" + block) == Tail(chain, role, block)
  {
    var rest := "-" + role + "-" + block;
    if role == "archive" {
      assert rest == "-archive-" + block && rest[9..] == block;
    } else {
      assert rest == "-full-" + block && rest[6..] == block && rest[1] == 'f';
    }
  }

  lemma ShapeMatches(s: string, g: Groups)
    requires Shape(s, g)
    ensures Match(s) == Some(g)
  {
    var rest := "-" + g.role + "-" + g.block;
    DigitPrefixIs(g.chain, rest);
    assert s[5..] == g.chain + rest;
    assert s[5 + |g.chain|..] == s[5..][|g.chain|..] == rest;
    AfterChainIs(g.chain, g.role, g.block);
  }

  lemma AfterChainHasShape(chain: string, rest: string)
    requires AfterChain(chain, rest).Some?
    ensures var g := AfterChain(chain, rest).value;
      g.chain == chain && ValidRole(g.role) && g.block != "" && AllDigits(g.block)
      && rest == "-" + g.role + "-" + g.block
  {
    if "-archive-" <= rest {
      assert rest == "-archive-" + rest[9..];
      assert "-archive-" == "-" + "archive" + "-";
    } else {
      assert rest == "-full-" + rest[6..];
      assert "-full-" == "-" + "full" + "-";
    }
  }

  lemma MatchHasShape(s: string)
    requires Match(s).Some?
    ensures Shape(s, Match(s).value)
  {
    var chain := DigitPrefix(s[5..]);
    var rest := s[5 + |chain|..];
    AfterChainHasShape(chain, rest);
    assert s[5..] == chain + rest;
    assert s == s[..5] + s[5..] && s[..5] == "geth-";
  }

  /** The parser accepts exactly the pattern's language, in uint64 range. */
  lemma ParseNameExactIff(s: string, n: Name)
    ensures ParseName(s) == Some(n) <==>
      exists g :: Shape(s, g) && DecimalValue(g.chain) == n.chainId < TWO_64 && g.role == n.role
                  && DecimalValue(g.block) == n.block < TWO_64
  {
    if ParseName(s) == Some(n) {
      MatchHasShape(s);
    }
    if g :| Shape(s, g) && DecimalValue(g.chain) == n.chainId < TWO_64 && g.role == n.role
            && DecimalValue(g.block) == n.block < TWO_64
    {
      ShapeMatches(s, g);
    }
  }

  // -------------------------------------------------------------- round trips

  lemma {:induction false} DecimalRoundTrip(n: nat)
    ensures Decimal(n) != "" && AllDigits(Decimal(n)) && DecimalValue(Decimal(n)) == n
    ensures Canonical(Decimal(n))
  {
    if n >= 10 {
      DecimalRoundTrip(n / 10);
      assert Decimal(n)[..|Decimal(n)| - 1] == Decimal(n / 10);
      assert "0"[..0] == "" && DecimalValue("0") == 0;
    }
  }

  function Pow10(k: nat): nat {
    if k == 0 then 1 else 10 * Pow10(k - 1)
  }

  /** A numeral is read from left to right: the digits on the left count for ten times more with each on the right. */
  lemma {:induction false} DecimalIsPositional(a: string, b: string)
    requires AllDigits(a) && AllDigits(b)
    ensures AllDigits(a + b) && DecimalValue(a + b) == DecimalValue(a) * Pow10(|b|) + DecimalValue(b)
  {
    if b == "" {
      assert a + b == a;
    } else {
      var init := b[..|b| - 1];
      DecimalIsPositional(a, init);
      assert (a + b)[..|a + b| - 1] == a + init;
      TimesTen(DecimalValue(a), Pow10(|init|), DecimalValue(init));
    }
  }

  lemma TimesTen(x: nat, power: nat, rest: nat)
    ensures (x * power + rest) * 10 == x * (10 * power) + rest * 10
  {
  }

  /** The ten numerals are the ten digits in order, and each prints as itself. */
  lemma DigitsCount(d: nat)
    requires d < 10
    ensures var c := "0123456789"[d]; IsDigit(c) && AllDigits([c]) && DecimalValue([c]) == d && Decimal(d) == [c]
  {
    var c := "0123456789"[d];
    assert [c][..0] == "" && Digit(d) == c;
  }

  /** No superfluous leading zero. */
  predicate Canonical(d: string) {
    d != "" && (|d| == 1 || d[0] != '0')
  }

  lemma {:induction false} CanonicalPositive(d: string)
    requires AllDigits(d) && Canonical(d) && d != "0"
    ensures DecimalValue(d) > 0
  {
    if |d| > 1 {
      assert d[..|d| - 1][0] == d[0];
      CanonicalPositive(d[..|d| - 1]);
    } else {
      assert d[..0] == "" && d == [d[0]] && "0" == ['0'];
    }
  }

  /** Printing a parsed number restores its digits exactly when they had no superfluous zero. */
  lemma DecimalSnoc(n: nat, last: nat)
    requires 0 < n && last < 10
    ensures Decimal(n * 10 + last) == Decimal(n) + [Digit(last)]
  {
    assert (n * 10 + last) / 10 == n && (n * 10 + last) % 10 == last;
  }

  lemma DigitBack(c: char)
    requires IsDigit(c)
    ensures 0 <= DigitValue(c) < 10 && Digit(DigitValue(c)) == c
  {
  }

  lemma {:induction false} DigitsSnoc(d: string)
    requires d != "" && AllDigits(d)
    ensures AllDigits(d[..|d| - 1]) && IsDigit(d[|d| - 1]) && 0 <= DigitValue(d[|d| - 1]) < 10
    ensures DecimalValue(d) == DecimalValue(d[..|d| - 1]) * 10 + DigitValue(d[|d| - 1])
    ensures d == d[..|d| - 1] + [Digit(DigitValue(d[|d| - 1]))]
  {
    DigitBack(d[|d| - 1]);
    hide Digit, DigitValue;
  }

  lemma {:induction false} CanonicalIsRestored(d: string)
    requires d != "" && AllDigits(d) && Canonical(d)
    ensures Decimal(DecimalValue(d)) == d
  {
    DigitsSnoc(d);
    var init, last := d[..|d| - 1], DigitValue(d[|d| - 1]);
    if |d| > 1 {
      assert init[0] == d[0] && Canonical(init) && init != "0";
      CanonicalPositive(init);
      CanonicalIsRestored(init);
      hide Decimal, DecimalValue, Digit, DigitValue, AllDigits, Canonical;
      DecimalSnoc(DecimalValue(init), last);
    } else {
      assert init == "" && d == [Digit(last)];
    }
  }

  lemma DecimalRestoresIff(d: string)
    requires d != "" && AllDigits(d)
    ensures Decimal(DecimalValue(d)) == d <==> Canonical(d)
  {
    DecimalRoundTrip(DecimalValue(d));
    if Canonical(d) { CanonicalIsRestored(d); }
  }

  lemma ShapeOfPrinted(n: Name)
    requires ValidRole(n.role)
    ensures Shape(ToString(n), Groups(Decimal(n.chainId), n.role, Decimal(n.block)))
  {
    DecimalRoundTrip(n.chainId);
    DecimalRoundTrip(n.block);
  }

  /** Every canonical name parses back to itself. */
  lemma PrintedNameParses(n: Name)
    requires n.chainId < TWO_64 && n.block < TWO_64 && ValidRole(n.role)
    ensures ParseName(ToString(n)) == Some(n)
  {
    ShapeOfPrinted(n);
    ShapeMatches(ToString(n), Groups(Decimal(n.chainId), n.role, Decimal(n.block)));
    DecimalRoundTrip(n.chainId);
    DecimalRoundTrip(n.block);
  }

  /** Printing a parsed name restores the string exactly when neither number has a superfluous zero. */
  lemma ParsedNamePrintsIff(s: string)
    requires ParseName(s).Some?
    ensures Match(s).Some?
    ensures ToString(ParseName(s).value) == s <==> Canonical(Match(s).value.chain) && Canonical(Match(s).value.block)
  {
    MatchHasShape(s);
    var g, n := Match(s).value, ParseName(s).value;
    DecimalRestoresIff(g.chain);
    DecimalRestoresIff(g.block);
    if ToString(n) == s {
      ShapeOfPrinted(n);
      ShapeMatches(s, Groups(Decimal(n.chainId), n.role, Decimal(n.block)));
    }
  }

  // -------------------------------------------------------------- path safety

  predicate SafeChar(c: char) {
    'A' <= c <= 'Z' || 'a' <= c <= 'z' || '0' <= c <= '9' || c == '.' || c == '_' || c == '-'
  }

  /** ValidateNamePathSafety. */
  predicate PathSafe(name: string) {
    name != "" && name != "." && name != ".." && forall i :: 0 <= i < |name| ==> SafeChar(name[i])
  }

  const UPPER := "ABCDEFGHIJKLMNOPQRSTUVWXYZ"
  const LOWER := "abcdefghijklmnopqrstuvwxyz"

  /** What may be a name: not empty, not a dot name, and of these characters only. */
  lemma PathSafeIff(name: string)
    ensures PathSafe(name) <==>
      && name !in {"", ".", ".."}
      && forall c | c in name :: c in UPPER || c in LOWER || c in "0123456789" || c in "._-"
  {
    forall i | 0 <= i < |name|
      ensures SafeChar(name[i]) <==> name[i] in UPPER || name[i] in LOWER || name[i] in "0123456789" || name[i] in "._-"
    {
      LettersAre(name[i]);
      DigitsAre(name[i]);
      hide *;
    }
  }

  lemma UpperAt(k: nat)
    requires k < 26
    ensures |UPPER| == 26 && UPPER[k] as int == 65 + k
  {
  }

  lemma LowerAt(k: nat)
    requires k < 26
    ensures |LOWER| == 26 && LOWER[k] as int == 97 + k
  {
  }

  lemma LettersAre(c: char)
    ensures 'A' <= c <= 'Z' <==> c in UPPER
    ensures 'a' <= c <= 'z' <==> c in LOWER
  {
    hide UPPER, LOWER;
    UpperAt(0);
    LowerAt(0);
    if 'A' <= c <= 'Z' { UpperAt(c as int - 65); }
    if 'a' <= c <= 'z' { LowerAt(c as int - 97); }
    if c in UPPER {
      var k :| 0 <= k < |UPPER| && UPPER[k] == c;
      UpperAt(k);
    }
    if c in LOWER {
      var k :| 0 <= k < |LOWER| && LOWER[k] == c;
      LowerAt(k);
    }
  }

  lemma DigitsAre(c: char)
    ensures '0' <= c <= '9' <==> c in "0123456789"
  {
    if '0' <= c <= '9' { assert "0123456789"[c as int - '0' as int] == c; }
  }

  /** A path-safe name is exactly one segment, whatever path it is put in. */
  lemma PathSafeIsSegment(name: string)
    requires PathSafe(name)
    ensures Paths.ValidName(name) && Paths.Split(name) == [name]
  {
    Paths.SplitPlain(name);
  }

  predicate AllSafe(s: string) {
    forall i :: 0 <= i < |s| ==> SafeChar(s[i])
  }

  lemma SafeConcat(a: string, b: string)
    requires AllSafe(a) && AllSafe(b)
    ensures AllSafe(a + b)
  {
  }

  lemma DigitsAreSafe(d: string)
    requires AllDigits(d)
    ensures AllSafe(d)
  {
  }

  lemma PrintedNameIsPathSafe(n: Name)
    requires ValidRole(n.role)
    ensures PathSafe(ToString(n))
  {
    var chain, block := Decimal(n.chainId), Decimal(n.block);
    DecimalRoundTrip(n.chainId);
    DecimalRoundTrip(n.block);
    DigitsAreSafe(chain);
    DigitsAreSafe(block);
    assert AllSafe("geth-") && AllSafe("-") && AllSafe(n.role);
    hide Decimal, SafeChar;
    SafeConcat("-", n.role);
    SafeConcat("-" + n.role, "-");
    SafeConcat("-" + n.role + "-", block);
    SafeConcat(chain, "-" + n.role + "-" + block);
    SafeConcat("geth-", chain + ("-" + n.role + "-" + block));
    assert |ToString(n)| > 2;
  }
}
