/** Telephone-number normalisation and the lookup cache's key format (internal/service/dno.go). */
module Phone {
  // ---------------------------------------------------------------- the code

  /** `strings.ReplaceAll(s, c, "")` for a one-character `c`. */
  function RemoveAll(s: string, c: char): string {
    if s == [] then []
    else if s[0] == c then RemoveAll(s[1..], c)
    else [s[0]] + RemoveAll(s[1..], c)
  }

  function TrimPrefix(s: string, prefix: string): string {
    if prefix <= s then s[|prefix|..] else s
  }

  /** The four ReplaceAll calls, in order. */
  function Strip(s: string): string {
    RemoveAll(RemoveAll(RemoveAll(RemoveAll(s, '-'), '('), ')'), ' ')
  }

  function Normalize(s: string): string {
    TrimPrefix(TrimPrefix(Strip(s), "+1"), "1")
  }

  predicate IsDigit(c: char) {
    '0' <= c <= '9'
  }

  /** The regular expression `^\d{10}$`. */
  predicate ValidPhone(s: string) {
    |s| == 10 && forall i | 0 <= i < |s| :: IsDigit(s[i])
  }

  function CacheKey(phone: string, channel: string): string {
    phone + ":" + channel
  }

  // ------------------------------------------------- spellings of one number

  predicate IsSeparator(c: char) {
    c == '-' || c == '(' || c == ')' || c == ' '
  }

  /** `s` is `d` with separators inserted anywhere, any number of them. */
  predicate Spells(s: string, d: string) {
    if s == [] then d == []
    else if IsSeparator(s[0]) then Spells(s[1..], d)
    else d != [] && d[0] == s[0] && Spells(s[1..], d[1..])
  }

  lemma RemoveAllCons(c: char, s: string, x: char)
    ensures RemoveAll([c] + s, x) == if c == x then RemoveAll(s, x) else [c] + RemoveAll(s, x)
  {
    assert ([c] + s)[1..] == s;
  }

  lemma StripCons(c: char, s: string)
    ensures Strip([c] + s) == if IsSeparator(c) then Strip(s) else [c] + Strip(s)
  {
    RemoveAllCons(c, s, '-');
    var s1 := RemoveAll(s, '-');
    RemoveAllCons(c, s1, '(');
    var s2 := RemoveAll(s1, '(');
    RemoveAllCons(c, s2, ')');
    RemoveAllCons(c, RemoveAll(s2, ')'), ' ');
  }

  /** Stripping recovers exactly the string that was spelled. */
  lemma {:induction false} StripIffSpells(s: string, d: string)
    ensures Spells(s, d) <==> Strip(s) == d
  {
    if s != [] {
      assert s == [s[0]] + s[1..];
      StripCons(s[0], s[1..]);
      if IsSeparator(s[0]) {
        StripIffSpells(s[1..], d);
      } else if d != [] {
        StripIffSpells(s[1..], d[1..]);
        assert d == [d[0]] + d[1..];
        assert ([s[0]] + Strip(s[1..]))[1..] == Strip(s[1..]);
      }
    }
  }

  /** What may stand before a number whose first digit is not 1: the code drops one `+1`, then one `1`. */
  ghost predicate CountryCode(cc: string) {
    cc == "" || cc == "1" || cc == "+1" || cc == "+11"
  }

  /** Before a number that starts with 1 a `1` must stand, or the code would take the number's own. */
  ghost predicate CodeFor(cc: string, d: string)
    requires d != []
  {
    if d[0] == '1' then cc == "1" || cc == "+11" else CountryCode(cc)
  }

  /** Exactly which inputs normalise to a given number: its spellings behind one of its country codes. */
  lemma NormalizesToIff(s: string, d: string)
    requires ValidPhone(d)
    ensures Normalize(s) == d <==> exists cc :: CodeFor(cc, d) && Spells(s, cc + d)
  {
    var t := Strip(s);
    if Normalize(s) == d {
      var cc := if "+1" <= t then (if "1" <= t[2..] then "+11" else "+1")
                else if "1" <= t then "1" else "";
      if "+1" <= t {
        assert t == "+1" + t[2..];
        if "1" <= t[2..] { assert t[2..] == "1" + t[2..][1..]; assert t == "+11" + d; }
      } else if "1" <= t {
        assert t == "1" + t[1..];
      }
      assert t == cc + d;
      StripIffSpells(s, cc + d);
      var u := if "+1" <= t then t[2..] else t;
      assert u == [] || ("1" <= u <==> u[0] == '1');
      assert cc == "" || cc == "+1" ==> u == d;
      assert CodeFor(cc, d);
    }
    if cc :| CodeFor(cc, d) && Spells(s, cc + d) {
      StripIffSpells(s, cc + d);
      NormalizeStripped(s, cc, d);
    }
  }

  lemma NormalizeStripped(s: string, cc: string, d: string)
    requires ValidPhone(d) && CodeFor(cc, d) && Strip(s) == cc + d
    ensures Normalize(s) == d
  {
    var t := Strip(s);
    if cc == "" {
      assert t == d && t[0] == d[0] && IsDigit(d[0]);
    } else if cc == "1" {
      assert t[0] == '1';
      assert "1" <= t && t[1..] == d;
    } else if cc == "+1" {
      assert "+1" <= t && t[2..] == d;
    } else {
      assert "+1" <= t && t[2..] == "1" + d;
      assert "1" <= "1" + d && ("1" + d)[1..] == d;
    }
  }

  /** Every spelling, with an optional country code, comes back as the ten digits, and stays there. */
  lemma NormalizeSpelling(s: string, cc: string, d: string)
    requires ValidPhone(d) && d[0] != '1'
    requires cc == "" || cc == "1" || cc == "+1"
    requires Spells(s, cc + d)
    ensures Normalize(s) == d && Normalize(Normalize(s)) == d
  {
    StripIffSpells(s, cc + d);
    NormalizeStripped(s, cc, d);
    PlainSpells(d);
    StripIffSpells(d, d);
    NormalizeStripped(d, "", d);
  }

  /** Ten digits not starting with 1 stand for themselves. */
  lemma PlainNumber(d: string)
    requires ValidPhone(d) && d[0] != '1'
    ensures Normalize(d) == d
  {
    PlainSpells(d);
    assert "" + d == d;
    NormalizeSpelling(d, "", d);
  }

  lemma {:induction false} PlainSpells(d: string)
    requires forall i | 0 <= i < |d| :: !IsSeparator(d[i])
    ensures Spells(d, d)
  {
    if d != [] { PlainSpells(d[1..]); }
  }

  // ------------------------------------------------------------- idempotence

  /** The stripped inputs on which a second normalisation removes something more. */
  predicate LeadsWithTwoCodes(t: string) {
    "11" <= t || "1+1" <= t || "+1+1" <= t || "+111" <= t || "+11+1" <= t
  }

  lemma {:induction false} StripHasNoSeparator(s: string)
    ensures forall i | 0 <= i < |Strip(s)| :: !IsSeparator(Strip(s)[i])
  {
    if s != [] {
      assert s == [s[0]] + s[1..];
      StripCons(s[0], s[1..]);
      StripHasNoSeparator(s[1..]);
    }
  }

  lemma StripFixesSuffix(s: string, u: string)
    requires exists n :: 0 <= n <= |Strip(s)| && u == Strip(s)[n..]
    ensures Strip(u) == u
  {
    StripHasNoSeparator(s);
    PlainSpells(u);
    StripIffSpells(u, u);
  }

  lemma NormalizeStrips(s: string)
    ensures Strip(Normalize(s)) == Normalize(s)
  {
    var t := Strip(s);
    var u := TrimPrefix(t, "+1");
    assert u == t[if "+1" <= t then 2 else 0..];
    var v := TrimPrefix(u, "1");
    var n := (if "+1" <= t then 2 else 0) + if "1" <= u then 1 else 0;
    assert v == t[n..];
    StripFixesSuffix(s, v);
  }

  lemma PrefixStep(p: string, q: string, t: string)
    requires p <= t
    ensures q <= t[|p|..] <==> p + q <= t
  {
    assert t == p + t[|p|..];
    if q <= t[|p|..] {
      assert t[|p|..] == q + t[|p|..][|q|..];
      assert t == (p + q) + t[|p|..][|q|..];
    }
    if p + q <= t {
      assert t == (p + q) + t[|p + q|..];
      assert t[|p|..] == q + t[|p + q|..];
    }
  }

  lemma FirstChar(p: string, t: string)
    requires p != [] && p <= t
    ensures t[0] == p[0]
  {
  }

  /** Normalising twice is normalising once exactly when the input does not lead with two country codes. */
  lemma IdempotentIff(s: string)
    ensures Normalize(Normalize(s)) == Normalize(s) <==> !LeadsWithTwoCodes(Strip(s))
  {
    NormalizeStrips(s);
    var t, v := Strip(s), Normalize(s);
    var w := TrimPrefix(v, "+1");
    assert Normalize(v) == TrimPrefix(w, "1");
    assert Normalize(v) == v <==> !("+1" <= v || "1" <= v) by {
      if "+1" <= v { assert |w| < |v|; } else if "1" <= v { assert |Normalize(v)| < |v|; }
    }
    if "+1" <= t {
      FirstChar("+1", t);
      var u := t[2..];
      PrefixStep("+1", "1", t);
      assert "+1" + "1" == "+11";
      if "1" <= u {
        assert v == u[1..] == t[3..];
        PrefixStep("+11", "1", t);
        PrefixStep("+11", "+1", t);
        assert "+11" + "1" == "+111" && "+11" + "+1" == "+11+1";
      } else {
        PrefixStep("+1", "+1", t);
        assert "+1" + "+1" == "+1+1";
        assert "+111" <= t ==> "+11" <= t;
        assert "+11+1" <= t ==> "+11" <= t;
      }
    } else {
      if "1" <= t {
        PrefixStep("1", "1", t);
        PrefixStep("1", "+1", t);
        assert "1" + "1" == "11" && "1" + "+1" == "1+1";
      } else {
      }
    }
  }

  /** For an accepted number that condition is its first digit: a stored number starting with 1 cannot be looked up
      by its own text, because looking it up normalises it again. */
  lemma IdempotentOnValidIff(s: string)
    requires ValidPhone(Normalize(s))
    ensures Normalize(Normalize(s)) == Normalize(s) <==> Normalize(s)[0] != '1'
  {
    var v := Normalize(s);
    NormalizeStrips(s);
    assert "1" <= v <==> v[0] == '1';
    assert !("+1" <= v) by { assert IsDigit(v[0]); }
  }

  /** Every ten-digit number starting with 1 is of that kind: behind a country code it is accepted, and looked up by its
      own ten digits it is not. */
  lemma StartsWithOne(d: string)
    requires ValidPhone(d) && d[0] == '1'
    ensures Normalize("1" + d) == d && Normalize(d) == d[1..] && !ValidPhone(d[1..])
  {
    var s := "1" + d;
    PlainSpells(s);
    PlainSpells(d);
    StripIffSpells(s, s);
    StripIffSpells(d, d);
    assert s[0] == '1' && s[1..] == d;
  }

  // -------------------------------------------------------------- cache keys

  /** The cache keys of a number are exactly the keys starting with the prefix the writers invalidate. */
  lemma KeyPrefixIff(p: string, q: string, c: string)
    requires ValidPhone(p) && ValidPhone(q)
    ensures p + ":" <= CacheKey(q, c) <==> p == q
    ensures CacheKey(q, c)[..10] == q && CacheKey(q, c)[11..] == c
  {
    var key := CacheKey(q, c);
    assert key[..10] == q;
    assert key[11..] == c;
    if p + ":" <= key {
      assert key[..11] == p + ":";
      assert p == (p + ":")[..10] == key[..11][..10] == key[..10];
    }
    if p == q { assert key[..11] == p + ":"; }
  }
}
