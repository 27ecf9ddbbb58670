/** What parse reads from the whitespace-separated token stream: the axiom and
    the rule set. The stream is the sequence of its tokens; the angle and the
    iteration count (tokens 0 and 1) arrive already converted. */
module Grammar {
  import opened Rewriting

  /** The value of the read buffer after attempting to read token k. A read
      past the end fails and leaves the buffer as it was: holding the last
      token of the stream, or empty if there is none. */
  function Retained(ts: seq<string>, k: nat): string {
    if k < |ts| then ts[k] else if ts == [] then "" else ts[|ts| - 1]
  }

  /** The rule key read from a token: its first character (the NUL character
      for an empty token, which the tokenizer never produces). */
  function KeyOf(t: string): char {
    if t == [] then '\0' else t[0]
  }

  /** The axiom: the third token. */
  function Axiom(ts: seq<string>): string {
    Retained(ts, 2)
  }

  /** Rules read from token i on, in triples `key arrow replacement`, each
      assignment overwriting any earlier one for the same key. */
  function RulesFrom(m: Rules, ts: seq<string>, i: nat): Rules
    decreases |ts| - i
  {
    if i >= |ts| then m else RulesFrom(m[KeyOf(ts[i]) := Retained(ts, i + 2)], ts, i + 3)
  }

  /** The rule set parse builds: triples start at token 3. */
  function RulesOf(ts: seq<string>): Rules {
    RulesFrom(map[], ts, 3)
  }

  /** Token j starts a rule triple. */
  predicate RuleStart(ts: seq<string>, j: nat) {
    3 <= j < |ts| && j % 3 == 0
  }

  /** A key that no triple from i on mentions keeps its binding in m. */
  lemma {:induction false} RulesFromUntouched(m: Rules, ts: seq<string>, i: nat, k: char)
    requires forall j :: i <= j < |ts| && j % 3 == i % 3 ==> KeyOf(ts[j]) != k
    ensures k in RulesFrom(m, ts, i) <==> k in m
    ensures k in m ==> RulesFrom(m, ts, i)[k] == m[k]
    decreases |ts| - i
  {
    if i < |ts| {
      RulesFromUntouched(m[KeyOf(ts[i]) := Retained(ts, i + 2)], ts, i + 3, k);
    }
  }

  /** A key mentioned by a triple from i on is bound in the result. */
  lemma {:induction false} RulesFromMentioned(m: Rules, ts: seq<string>, i: nat, j: nat)
    requires i <= j < |ts| && j % 3 == i % 3
    ensures KeyOf(ts[j]) in RulesFrom(m, ts, i)
    decreases |ts| - i
  {
    var m' := m[KeyOf(ts[i]) := Retained(ts, i + 2)];
    if i == j {
      var k := KeyOf(ts[j]);
      if forall j' :: i + 3 <= j' < |ts| && j' % 3 == (i + 3) % 3 ==> KeyOf(ts[j']) != k {
        RulesFromUntouched(m', ts, i + 3, k);
      } else {
        var j' :| i + 3 <= j' < |ts| && j' % 3 == (i + 3) % 3 && KeyOf(ts[j']) == k;
        RulesFromMentioned(m', ts, i + 3, j');
      }
    } else {
      RulesFromMentioned(m', ts, i + 3, j);
    }
  }

  /** Last wins: the binding of a key is the replacement of the last triple
      from i on that mentions it. */
  lemma {:induction false} RulesFromLastWins(m: Rules, ts: seq<string>, i: nat, j: nat)
    requires i <= j < |ts| && j % 3 == i % 3
    requires forall j' :: j < j' < |ts| && j' % 3 == i % 3 ==> KeyOf(ts[j']) != KeyOf(ts[j])
    ensures KeyOf(ts[j]) in RulesFrom(m, ts, i)
    ensures RulesFrom(m, ts, i)[KeyOf(ts[j])] == Retained(ts, j + 2)
    decreases |ts| - i
  {
    var m' := m[KeyOf(ts[i]) := Retained(ts, i + 2)];
    if i == j {
      RulesFromUntouched(m', ts, i + 3, KeyOf(ts[j]));
    } else {
      RulesFromLastWins(m', ts, i + 3, j);
    }
  }

  /** The keys of the parsed rule set are exactly the first characters of the
      tokens that start a triple. */
  lemma RulesOfKeys(ts: seq<string>, k: char)
    ensures k in RulesOf(ts) <==> exists j: nat :: RuleStart(ts, j) && KeyOf(ts[j]) == k
  {
    if exists j: nat :: RuleStart(ts, j) && KeyOf(ts[j]) == k {
      var j: nat :| RuleStart(ts, j) && KeyOf(ts[j]) == k;
      RulesFromMentioned(map[], ts, 3, j);
    } else {
      RulesFromUntouched(map[], ts, 3, k);
    }
  }

  /** The replacement bound to a key is the third token of the last triple
      with that key (the last token of the stream when that triple is cut short). */
  lemma RulesOfLastWins(ts: seq<string>, j: nat)
    requires RuleStart(ts, j)
    requires forall j': nat :: RuleStart(ts, j') && j' > j ==> KeyOf(ts[j']) != KeyOf(ts[j])
    ensures KeyOf(ts[j]) in RulesOf(ts)
    ensures RulesOf(ts)[KeyOf(ts[j])] == Retained(ts, j + 2)
  {
    RulesFromLastWins(map[], ts, 3, j);
  }

  lemma {:induction false} RulesFromIgnoresArrow(m: Rules, ts: seq<string>, i: nat, j: nat, a: string)
    requires i <= j && j % 3 == i % 3 && j + 2 < |ts|
    ensures RulesFrom(m, ts[j + 1 := a], i) == RulesFrom(m, ts, i)
    decreases |ts| - i
  {
    var ts' := ts[j + 1 := a];
    assert KeyOf(ts'[i]) == KeyOf(ts[i]) && Retained(ts', i + 2) == Retained(ts, i + 2);
    if i < j {
      RulesFromIgnoresArrow(m[KeyOf(ts[i]) := Retained(ts, i + 2)], ts, i + 3, j, a);
    } else {
      RulesFromAgree(m[KeyOf(ts[i]) := Retained(ts, i + 2)], ts, ts', i + 3);
    }
  }

  /** The rules read from i on depend only on the tokens from i on. */
  lemma {:induction false} RulesFromAgree(m: Rules, ts: seq<string>, us: seq<string>, i: nat)
    requires |ts| == |us| && forall j :: i <= j < |ts| ==> ts[j] == us[j]
    ensures RulesFrom(m, ts, i) == RulesFrom(m, us, i)
    decreases |ts| - i
  {
    if i < |ts| {
      RulesFromAgree(m[KeyOf(ts[i]) := Retained(ts, i + 2)], ts, us, i + 3);
    }
  }

  /** The middle token of a complete triple is read and discarded. */
  lemma RulesOfIgnoresArrow(ts: seq<string>, j: nat, a: string)
    requires RuleStart(ts, j) && j + 2 < |ts|
    ensures RulesOf(ts[j + 1 := a]) == RulesOf(ts)
  {
    RulesFromIgnoresArrow(map[], ts, 3, j, a);
  }

  lemma {:induction false} RulesFromIgnoresKeyRest(m: Rules, ts: seq<string>, i: nat, j: nat, t: string)
    requires i <= j && j % 3 == i % 3 && j + 1 < |ts| && KeyOf(t) == KeyOf(ts[j])
    ensures RulesFrom(m, ts[j := t], i) == RulesFrom(m, ts, i)
    decreases |ts| - i
  {
    var ts' := ts[j := t];
    assert KeyOf(ts'[i]) == KeyOf(ts[i]) && Retained(ts', i + 2) == Retained(ts, i + 2);
    if i < j {
      RulesFromIgnoresKeyRest(m[KeyOf(ts[i]) := Retained(ts, i + 2)], ts, i + 3, j, t);
    } else {
      RulesFromAgree(m[KeyOf(ts[i]) := Retained(ts, i + 2)], ts, ts', i + 3);
    }
  }

  /** Only the first character of a key token matters: the rest of it is
      ignored (unless the token is the last of the stream, when it is also the
      retained replacement). */
  lemma RulesOfIgnoresKeyRest(ts: seq<string>, j: nat, t: string)
    requires RuleStart(ts, j) && j + 1 < |ts| && KeyOf(t) == KeyOf(ts[j])
    ensures RulesOf(ts[j := t]) == RulesOf(ts)
  {
    RulesFromIgnoresKeyRest(map[], ts, 3, j, t);
  }
}
