/** The e-mail pattern shared by the users route, company registration and
    the login form:

        ^\w+([.-]?\w+)*@\w+([.-]?\w+)*(\.\w{2,3})+$

    written as a recogniser that follows the pattern's structure, together
    with a proof that it accepts exactly `Label "@" Label "." Tld`. */
module EmailPattern {
  import opened Js

  /** `\w` in a JavaScript pattern without the `u` flag: `[A-Za-z0-9_]`. */
  predicate IsWord(c: char)
  {
    ('a' <= c <= 'z') || ('A' <= c <= 'Z') || ('0' <= c <= '9') || c == '_'
  }

  /** The optional separator class `[.-]`. */
  predicate IsSep(c: char)
  {
    c == '.' || c == '-'
  }

  predicate AllWord(s: string)
  {
    forall i | 0 <= i < |s| :: IsWord(s[i])
  }

  /** `\w{2,3}`: the last group of the domain. */
  predicate Tld(s: string)
  {
    2 <= |s| <= 3 && AllWord(s)
  }

  // ---------------------------------------------------------------------
  // The recogniser, one predicate per part of the pattern
  // ---------------------------------------------------------------------

  /** What may follow a `\w` inside `\w+([.-]?\w+)*`: nothing, another `\w`,
      or one separator and a `\w`, each followed again by such a tail. */
  predicate WordTail(t: string)
    decreases |t|
  {
    || t == []
    || (IsWord(t[0]) && WordTail(t[1..]))
    || (|t| >= 2 && IsSep(t[0]) && IsWord(t[1]) && WordTail(t[2..]))
  }

  /** `\w+([.-]?\w+)*` matched against the whole of `s`. */
  predicate Words(s: string)
  {
    |s| > 0 && IsWord(s[0]) && WordTail(s[1..])
  }

  /** `(\.\w{2,3})+` matched against the whole of `u`. */
  predicate Suffixes(u: string)
    decreases |u|
  {
    && |u| >= 3
    && u[0] == '.'
    && (|| (Tld(u[1..3]) && (|u| == 3 || Suffixes(u[3..])))
        || (|u| >= 4 && Tld(u[1..4]) && (|u| == 4 || Suffixes(u[4..]))))
  }

  /** `\w+([.-]?\w+)*(\.\w{2,3})+` against the whole of `t`, at some split. */
  predicate Domain(t: string)
  {
    exists j | 0 <= j <= |t| :: Words(t[..j]) && Suffixes(t[j..])
  }

  /** The anchored pattern as `RegExp.prototype.test` applies it to a string. */
  predicate ValidEmail(s: string)
  {
    exists k | 0 <= k < |s| :: s[k] == '@' && Words(s[..k]) && Domain(s[k + 1..])
  }

  /** `pattern.test(x)` on a body field: the field is first converted to a
      string, so a missing or null field is tested as "undefined" or "null".
      Only a non-empty string can pass. */
  predicate EmailTest(f: Field)
    ensures EmailTest(f) ==> Truthy(f)
  {
    assert !ValidEmail("undefined") by { NoAtNoEmail("undefined"); }
    assert !ValidEmail("null") by { NoAtNoEmail("null"); }
    ValidEmail(Text(f))
  }

  // ---------------------------------------------------------------------
  // The declarative reading
  // ---------------------------------------------------------------------

  /** A non-empty string over `\w` and `[.-]` that begins and ends with `\w`
      and never has two separators in a row. */
  predicate Label(s: string)
  {
    && |s| > 0
    && IsWord(s[0])
    && IsWord(s[|s| - 1])
    && (forall i | 0 <= i < |s| :: IsWord(s[i]) || IsSep(s[i]))
    && (forall i | 0 <= i < |s| - 1 :: !(IsSep(s[i]) && IsSep(s[i + 1])))
  }

  /** `s` is `a "@" b "." c` with labels `a`, `b` and a 2-3 character `c`. */
  predicate Shaped(s: string, a: string, b: string, c: string)
  {
    s == a + "@" + b + "." + c && Label(a) && Label(b) && Tld(c)
  }

  // ---------------------------------------------------------------------
  // Proofs
  // ---------------------------------------------------------------------

  lemma NoAtNoEmail(s: string)
    requires forall i | 0 <= i < |s| :: s[i] != '@'
    ensures !ValidEmail(s)
  {
  }

  /** Prefixing a word character to a label that starts with one keeps it a label. */
  lemma LabelConsWord(w: char, x: string)
    requires IsWord(w) && |x| > 0 && IsWord(x[0])
    ensures Label([w] + x) <==> Label(x)
  {
    var s := [w] + x;
    assert forall i | 0 <= i < |x| :: s[i + 1] == x[i];
    if Label(x) {
      forall i | 0 <= i < |s| - 1
        ensures !(IsSep(s[i]) && IsSep(s[i + 1]))
      {
        if i > 0 { assert s[i] == x[i - 1] && s[i + 1] == x[i]; }
      }
      forall i | 0 <= i < |s|
        ensures IsWord(s[i]) || IsSep(s[i])
      {
        if i > 0 { assert s[i] == x[i - 1]; }
      }
    }
    if Label(s) {
      forall i | 0 <= i < |x| - 1
        ensures !(IsSep(x[i]) && IsSep(x[i + 1]))
      {
        assert s[i + 1] == x[i] && s[i + 2] == x[i + 1];
      }
    }
  }

  /** After a word character, a separator followed by a word character
      continues a label exactly when the rest from that word character is one. */
  lemma LabelConsSep(w: char, x: string)
    requires IsWord(w) && |x| >= 2 && IsSep(x[0]) && IsWord(x[1])
    ensures Label([w] + x) <==> Label(x[1..])
  {
    var s := [w] + x;
    var y := x[1..];
    assert forall i | 0 <= i < |y| :: s[i + 2] == y[i];
    if Label(y) {
      forall i | 0 <= i < |s| - 1
        ensures !(IsSep(s[i]) && IsSep(s[i + 1]))
      {
        if i > 1 { assert s[i] == y[i - 2] && s[i + 1] == y[i - 1]; }
      }
      forall i | 0 <= i < |s|
        ensures IsWord(s[i]) || IsSep(s[i])
      {
        if i > 1 { assert s[i] == y[i - 2]; }
      }
    }
    if Label(s) {
      forall i | 0 <= i < |y| - 1
        ensures !(IsSep(y[i]) && IsSep(y[i + 1]))
      {
        assert s[i + 2] == y[i] && s[i + 3] == y[i + 1];
      }
    }
  }

  /** The tail after a word character `w` is accepted exactly when `w` and the
      tail together form a label. */
  lemma {:induction false} WordTailIsLabel(w: char, t: string)
    requires IsWord(w)
    ensures WordTail(t) <==> Label([w] + t)
    decreases |t|
  {
    var s := [w] + t;
    if t == [] {
      assert s == [w];
    } else if IsWord(t[0]) {
      WordTailIsLabel(t[0], t[1..]);
      assert t == [t[0]] + t[1..];
      LabelConsWord(w, t);
    } else if IsSep(t[0]) {
      if |t| >= 2 && IsWord(t[1]) {
        WordTailIsLabel(t[1], t[2..]);
        assert t[1..] == [t[1]] + t[2..];
        LabelConsSep(w, t);
      } else if |t| == 1 {
        assert s[|s| - 1] == t[0];
      } else {
        assert s[1] == t[0] && s[2] == t[1];
      }
    } else {
      assert s[1] == t[0];
    }
  }

  /** The recogniser of `\w+([.-]?\w+)*` accepts exactly the labels. */
  lemma WordsIsLabel(s: string)
    ensures Words(s) <==> Label(s)
  {
    if |s| > 0 && IsWord(s[0]) {
      WordTailIsLabel(s[0], s[1..]);
      assert s == [s[0]] + s[1..];
    }
  }

  /** A label followed by a dot and a top-level group is again a label. */
  lemma LabelExtend(p: string, t: string)
    requires Label(p) && Tld(t)
    ensures Label(p + "." + t)
  {
    var s := p + "." + t;
    assert forall i | 0 <= i < |p| :: s[i] == p[i];
    assert s[|p|] == '.';
    assert forall i | 0 <= i < |t| :: s[|p| + 1 + i] == t[i];
    forall i | 0 <= i < |s|
      ensures IsWord(s[i]) || IsSep(s[i])
    {
      if i > |p| { assert s[i] == t[i - |p| - 1]; }
    }
    forall i | 0 <= i < |s| - 1
      ensures !(IsSep(s[i]) && IsSep(s[i + 1]))
    {
      if i < |p| - 1 {
        assert s[i] == p[i] && s[i + 1] == p[i + 1];
      } else if i == |p| - 1 {
        assert s[i] == p[|p| - 1];
      } else if i == |p| {
        assert s[i + 1] == t[0];
      } else {
        assert s[i + 1] == t[i - |p|];
      }
    }
    assert s[|s| - 1] == t[|t| - 1];
  }

  /** A label followed by `(\.\w{2,3})+` splits as label, dot, last group. */
  lemma {:induction false} SuffixesShape(p: string, u: string) returns (b: string, c: string)
    requires Label(p) && Suffixes(u)
    ensures p + u == b + "." + c && Label(b) && Tld(c)
    decreases |u|
  {
    var k := if Tld(u[1..3]) && (|u| == 3 || Suffixes(u[3..])) then 3 else 4;
    assert k <= |u| && Tld(u[1..k]) && (|u| == k || Suffixes(u[k..]));
    var t, rest := u[1..k], u[k..];
    assert u == [u[0]] + t + rest by {
      assert u == u[..1] + u[1..k] + u[k..];
    }
    assert u == "." + t + rest;
    if |u| == k {
      assert rest == [];
      assert p + u == p + "." + t;
      b, c := p, t;
    } else {
      LabelExtend(p, t);
      b, c := SuffixesShape(p + "." + t, rest);
      assert (p + "." + t) + rest == p + u;
    }
  }

  /** A dot and one top-level group satisfy `(\.\w{2,3})+`. */
  lemma OneSuffix(c: string)
    requires Tld(c)
    ensures Suffixes("." + c)
  {
    var u := "." + c;
    if |c| == 2 {
      assert u[1..3] == c;
    } else {
      assert u[1..4] == c;
    }
  }

  /** The domain part accepts exactly `Label "." Tld`. */
  lemma DomainShape(t: string)
    ensures Domain(t) <==> exists b, c :: t == b + "." + c && Label(b) && Tld(c)
  {
    if Domain(t) {
      var b, c := DomainIsShaped(t);
    }
    if exists b, c :: t == b + "." + c && Label(b) && Tld(c) {
      var b, c :| t == b + "." + c && Label(b) && Tld(c);
      ShapedIsDomain(b, c);
    }
  }

  lemma DomainIsShaped(t: string) returns (b: string, c: string)
    requires Domain(t)
    ensures t == b + "." + c && Label(b) && Tld(c)
  {
    var j :| 0 <= j <= |t| && Words(t[..j]) && Suffixes(t[j..]);
    WordsIsLabel(t[..j]);
    b, c := SuffixesShape(t[..j], t[j..]);
    assert t[..j] + t[j..] == t;
  }

  lemma ShapedIsDomain(b: string, c: string)
    requires Label(b) && Tld(c)
    ensures Domain(b + "." + c)
  {
    var t := b + "." + c;
    WordsIsLabel(b);
    OneSuffix(c);
    assert t[..|b|] == b;
    assert t[|b|..] == "." + c;
  }

  /** Whatever passes the pattern has the shape `a "@" b "." c`; the parts
      are returned. */
  lemma ValidEmailIsShaped(s: string) returns (a: string, b: string, c: string)
    requires ValidEmail(s)
    ensures Shaped(s, a, b, c)
  {
    var k :| 0 <= k < |s| && s[k] == '@' && Words(s[..k]) && Domain(s[k + 1..]);
    var rest := s[k + 1..];
    a := s[..k];
    WordsIsLabel(a);
    b, c := DomainIsShaped(rest);
    SplitAt(s, k);
    SplitShaped(s, a, rest, b, c);
  }

  lemma SplitAt(s: string, k: nat)
    requires k < |s| && s[k] == '@'
    ensures s == s[..k] + "@" + s[k + 1..]
  {
    assert s == s[..k] + [s[k]] + s[k + 1..];
  }

  lemma SplitShaped(s: string, a: string, rest: string, b: string, c: string)
    requires s == a + "@" + rest && rest == b + "." + c
    requires Label(a) && Label(b) && Tld(c)
    ensures Shaped(s, a, b, c)
  {
    assert a + "@" + (b + "." + c) == a + "@" + b + "." + c;
  }

  /** The pattern accepts exactly the strings `a "@" b "." c` where `a` and
      `b` are labels and `c` is two or three word characters. */
  lemma ValidEmailShape(s: string)
    ensures ValidEmail(s) <==> exists a, b, c :: Shaped(s, a, b, c)
  {
    if ValidEmail(s) {
      var a, b, c := ValidEmailIsShaped(s);
    }
    if exists a, b, c :: Shaped(s, a, b, c) {
      var a, b, c :| Shaped(s, a, b, c);
      ShapedIsValid(a, b, c);
    }
  }

  /** Every `a "@" b "." c` of the right shape passes the pattern. */
  lemma ShapedIsValid(a: string, b: string, c: string)
    requires Label(a) && Label(b) && Tld(c)
    ensures ValidEmail(a + "@" + b + "." + c)
  {
    var s := a + "@" + b + "." + c;
    var k := |a|;
    assert s[k] == '@';
    assert s[..k] == a;
    assert s[k + 1..] == b + "." + c;
    WordsIsLabel(a);
    DomainShape(b + "." + c);
  }
}
