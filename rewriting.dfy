/** The rewriter: one application of the rule set to a symbol string, and the
    chain of generations obtained by applying it repeatedly to the axiom. */
module Rewriting {

  /** A rule set maps a single symbol to its replacement string. */
  type Rules = map<char, string>

  /** What one symbol contributes to the rewritten string. */
  function Image(ch: char, rules: Rules): string {
    if ch in rules then rules[ch] else [ch]
  }

  /** Replace every symbol by its rule's replacement, keeping symbols without a rule. */
  function Rewrite(s: string, rules: Rules): string
    decreases |s|
  {
    if s == [] then [] else Image(s[0], rules) + Rewrite(s[1..], rules)
  }

  /** Rewriting is a homomorphism: it distributes over concatenation. */
  lemma {:induction false} RewriteAppend(a: string, b: string, rules: Rules)
    ensures Rewrite(a + b, rules) == Rewrite(a, rules) + Rewrite(b, rules)
    decreases |a|
  {
    if a == [] {
      assert a + b == b;
    } else {
      assert (a + b)[0] == a[0];
      assert (a + b)[1..] == a[1..] + b;
      RewriteAppend(a[1..], b, rules);
    }
  }

  /** A single symbol rewrites to its image. */
  lemma RewriteSymbol(ch: char, rules: Rules)
    ensures Rewrite([ch], rules) == Image(ch, rules)
  {
    assert [ch][1..] == [];
  }

  /** Symbols without a rule are left untouched. */
  lemma {:induction false} RewriteUntouched(s: string, rules: Rules)
    requires forall i :: 0 <= i < |s| ==> s[i] !in rules
    ensures Rewrite(s, rules) == s
    decreases |s|
  {
    if s != [] {
      RewriteUntouched(s[1..], rules);
    }
  }

  /** With an empty rule set the rewrite is the identity. */
  lemma {:induction false} RewriteNoRules(s: string)
    ensures Rewrite(s, map[]) == s
  {
    RewriteUntouched(s, map[]);
  }

  /** When no replacement is empty, rewriting never shortens a string. */
  lemma {:induction false} RewriteNeverShrinks(s: string, rules: Rules)
    requires forall k :: k in rules ==> |rules[k]| >= 1
    ensures |Rewrite(s, rules)| >= |s|
    decreases |s|
  {
    if s != [] {
      RewriteNeverShrinks(s[1..], rules);
    }
  }

  /** Generation n: the axiom rewritten n times. */
  function Generation(axiom: string, rules: Rules, n: nat): string
    decreases n
  {
    if n == 0 then axiom else Rewrite(Generation(axiom, rules, n - 1), rules)
  }

  /** Each string of the sequence is the rewrite of the one before it. */
  ghost predicate IsChain(ss: seq<string>, rules: Rules) {
    forall i :: 0 <= i < |ss| - 1 ==> ss[i + 1] == Rewrite(ss[i], rules)
  }

  /** A chain is the sequence of generations of its first string. */
  lemma {:induction false} ChainIsGenerations(ss: seq<string>, rules: Rules, i: nat)
    requires IsChain(ss, rules) && i < |ss|
    ensures ss[i] == Generation(ss[0], rules, i)
    decreases i
  {
    if i > 0 {
      ChainIsGenerations(ss, rules, i - 1);
    }
  }

  /** Rewriting m + n times is rewriting n times the m-th generation. */
  lemma {:induction false} GenerationSplit(axiom: string, rules: Rules, m: nat, n: nat)
    ensures Generation(axiom, rules, m + n) == Generation(Generation(axiom, rules, m), rules, n)
    decreases n
  {
    if n > 0 {
      GenerationSplit(axiom, rules, m, n - 1);
    }
  }

  /** How many times `c` occurs in `s`. */
  function Count(c: char, s: string): nat
    decreases |s|
  {
    if s == [] then 0 else (if s[0] == c then 1 else 0) + Count(c, s[1..])
  }

  /** Under a single rule `key -> r`, every `key` becomes a copy of r and every
      other symbol stays, so the number of keys is multiplied by the keys in r. */
  lemma {:induction false} SingleRuleKeyCount(s: string, key: char, r: string)
    ensures Count(key, Rewrite(s, map[key := r])) == Count(key, s) * Count(key, r)
    decreases |s|
  {
    if s != [] {
      var rules, t := map[key := r], s[1..];
      var k, c := Count(key, r), Count(key, t);
      var img := Image(s[0], rules);
      assert Rewrite(s, rules) == img + Rewrite(t, rules);
      SingleRuleKeyCount(t, key, r);
      CountAppend(key, img, Rewrite(t, rules));
      if s[0] == key {
        assert img == r;
        assert Count(key, s) == c + 1;
        assert (c + 1) * k == c * k + k;
      } else {
        assert img == [s[0]] && [s[0]][1..] == [];
        assert Count(key, img) == 0;
        assert Count(key, s) == c;
      }
    }
  }

  /** Under a single rule `key -> r` each key adds |r| - 1 symbols. */
  lemma {:induction false} SingleRuleLength(s: string, key: char, r: string)
    ensures |Rewrite(s, map[key := r])| == |s| + Count(key, s) * (|r| - 1)
    decreases |s|
  {
    if s != [] {
      var rules, t := map[key := r], s[1..];
      var n, c := |r| - 1, Count(key, t);
      var img := Image(s[0], rules);
      assert Rewrite(s, rules) == img + Rewrite(t, rules);
      SingleRuleLength(t, key, r);
      if s[0] == key {
        assert img == r;
        assert Count(key, s) == c + 1;
        assert (c + 1) * n == c * n + n;
      } else {
        assert img == [s[0]];
        assert Count(key, s) == c;
      }
    }
  }

  lemma {:induction false} CountAppend(c: char, a: string, b: string)
    ensures Count(c, a + b) == Count(c, a) + Count(c, b)
    decreases |a|
  {
    if a == [] {
      assert a + b == b;
    } else {
      assert (a + b)[1..] == a[1..] + b;
      CountAppend(c, a[1..], b);
    }
  }

  function Pow3(n: nat): nat {
    if n == 0 then 1 else 3 * Pow3(n - 1)
  }

  /** The Koch-curve grammar `F -> F+F-F` from axiom `F`: generation n holds
      3^n copies of F and has length 2 * 3^n - 1. */
  lemma {:induction false} KochGrowth(n: nat)
    ensures Count('F', Generation("F", map['F' := "F+F-F"], n)) == Pow3(n)
    ensures |Generation("F", map['F' := "F+F-F"], n)| == 2 * Pow3(n) - 1
    decreases n
  {
    var r := "F+F-F";
    assert Count('F', r) == 3 by {
      assert r[1..] == "+F-F" && r[2..] == "F-F" && r[3..] == "-F" && r[4..] == "F";
      assert "F"[1..] == "";
    }
    if n == 0 {
      assert "F"[1..] == "";
    } else {
      KochGrowth(n - 1);
      SingleRuleKeyCount(Generation("F", map['F' := r], n - 1), 'F', r);
      SingleRuleLength(Generation("F", map['F' := r], n - 1), 'F', r);
    }
  }
}
