/** Substring search, the meaning of Python's `sub in s` on two strings. */
module Text {

  /** `sub` occurs in `s` starting at index `i`. */
  predicate OccursAt(s: string, sub: string, i: nat)
  {
    i + |sub| <= |s| && s[i..i + |sub|] == sub
  }

  /** Does `sub` occur anywhere in `s`? */
  function Contains(s: string, sub: string): (r: bool)
    ensures r <==> exists i: nat :: OccursAt(s, sub, i)
    decreases |s|
  {
    if |sub| <= |s| && s[..|sub|] == sub then
      assert OccursAt(s, sub, 0);
      true
    else if |s| == 0 then
      false
    else
      var r := Contains(s[1..], sub);
      assert forall i: nat :: OccursAt(s[1..], sub, i) <==> OccursAt(s, sub, i + 1);
      assert forall i: nat :: OccursAt(s, sub, i) && i > 0 ==> OccursAt(s[1..], sub, i - 1);
      r
  }

  /** A substring cannot occur where one of its characters does not. */
  lemma MissingCharacter(s: string, sub: string, c: char)
    requires c in sub && c !in s
    ensures !Contains(s, sub)
  {
  }
}

/** The regular expressions of the extractor, matched the way Python's `re.match` matches:
    anchored at the start of the string only, so a pattern accepts every string that
    has a matching prefix. */
module PrefixRegex {

  predicate IsDigit(c: char)
  {
    '0' <= c <= '9'
  }

  /** One character position of a pattern: a literal character, the class `[0-9]`, or `.`,
      which without the DOTALL flag accepts every character except a line feed. */
  datatype Atom = Char(c: char) | Digit | AnyButNewline

  predicate Accepts(a: Atom, c: char)
  {
    match a
    case Char(d) => c == d
    case Digit => IsDigit(c)
    case AnyButNewline => c != '\n'
  }

  /** An atom written once, or followed by `+`. */
  datatype Term = Once(atom: Atom) | OneOrMore(atom: Atom)

  type Regex = seq<Term>

  /** The pattern that spells out `p` character by character. */
  function Literal(p: string): Regex
  {
    seq(|p|, i requires 0 <= i < |p| => Once(Char(p[i])))
  }

  /** Backtracking matcher: does some prefix of `s` match `r`? A `+` term consumes one
      character and then either stops or repeats. */
  function Match(r: Regex, s: string): bool
    decreases |s|
  {
    if r == [] then true
    else if s == [] then false
    else
      match r[0]
      case Once(a) => Accepts(a, s[0]) && Match(r[1..], s[1..])
      case OneOrMore(a) => Accepts(a, s[0]) && (Match(r[1..], s[1..]) || Match(r, s[1..]))
  }

  /** The first `k` characters of `s` are all accepted by `a`. */
  predicate RunOf(a: Atom, s: string, k: nat)
  {
    k <= |s| && forall i :: 0 <= i < k ==> Accepts(a, s[i])
  }

  lemma MatchOnce(a: Atom, rest: Regex, s: string)
    ensures Match([Once(a)] + rest, s) <==> |s| > 0 && Accepts(a, s[0]) && Match(rest, s[1..])
  {
    assert ([Once(a)] + rest)[1..] == rest;
  }

  /** A literal prefix of the pattern must be a literal prefix of the string. */
  lemma {:induction false} MatchLiteral(p: string, rest: Regex, s: string)
    ensures Match(Literal(p) + rest, s) <==> |p| <= |s| && s[..|p|] == p && Match(rest, s[|p|..])
    decreases |p|
  {
    if p == [] {
      assert Literal(p) + rest == rest;
      assert s[..0] == p && s[0..] == s;
    } else {
      assert Literal(p) + rest == [Once(Char(p[0]))] + (Literal(p[1..]) + rest);
      MatchOnce(Char(p[0]), Literal(p[1..]) + rest, s);
      if |s| > 0 {
        MatchLiteral(p[1..], rest, s[1..]);
        if |p| <= |s| {
          assert s[1..][|p| - 1..] == s[|p|..];
          assert s[..|p|] == [s[0]] + s[1..][..|p| - 1];
          assert p == [p[0]] + p[1..];
        }
      }
    }
  }

  /** `a+` followed by `rest` matches iff some non-empty run of `a` is followed by a match of `rest`. */
  lemma {:induction false} MatchOneOrMore(a: Atom, rest: Regex, s: string)
    ensures Match([OneOrMore(a)] + rest, s) <==>
            exists k: nat :: 1 <= k && RunOf(a, s, k) && Match(rest, s[k..])
    decreases |s|
  {
    var r := [OneOrMore(a)] + rest;
    assert r[0] == OneOrMore(a) && r[1..] == rest;
    if |s| > 0 {
      MatchOneOrMore(a, rest, s[1..]);
      if Match(r, s) {
        if Match(rest, s[1..]) {
          assert RunOf(a, s, 1);
        } else {
          var k: nat :| 1 <= k && RunOf(a, s[1..], k) && Match(rest, s[1..][k..]);
          assert s[1..][k..] == s[k + 1..];
          assert RunOf(a, s, k + 1);
        }
      }
      if exists k: nat :: 1 <= k && RunOf(a, s, k) && Match(rest, s[k..]) {
        var k: nat :| 1 <= k && RunOf(a, s, k) && Match(rest, s[k..]);
        assert Accepts(a, s[0]);
        if k > 1 {
          assert s[1..][k - 1..] == s[k..];
          assert RunOf(a, s[1..], k - 1);
        }
      }
    }
  }

  /** Under prefix matching a trailing `a+` and a trailing `a` accept the same strings. */
  lemma {:induction false} TrailingOneOrMore(r: Regex, a: Atom, s: string)
    ensures Match(r + [OneOrMore(a)], s) == Match(r + [Once(a)], s)
    decreases |s|, |r|
  {
    var plus := r + [OneOrMore(a)];
    var once := r + [Once(a)];
    if r == [] {
      assert plus == [OneOrMore(a)] + [] && once == [Once(a)] + [];
      MatchOnce(a, [], s);
      if |s| > 0 {
        assert Match([], s[1..]);
      }
    } else if |s| > 0 {
      assert plus[0] == once[0] == r[0];
      assert plus[1..] == r[1..] + [OneOrMore(a)];
      assert once[1..] == r[1..] + [Once(a)];
      TrailingOneOrMore(r[1..], a, s[1..]);
      if r[0].OneOrMore? {
        TrailingOneOrMore(r, a, s[1..]);
      }
    }
  }
}
