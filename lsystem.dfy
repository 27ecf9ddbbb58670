/** The L-system object: its grammar (turning angle and rules), the
    generations expanded so far, and each generation's vertex range in one
    growing vertex buffer of bufSize bytes. */
module LSystems {
  import opened Rewriting
  import opened Grammar
  import opened Turtle
  import opened Storage

  /** What iterate gives back: the number of stored iterations, or the report
      that the next generation's geometry would exceed the maximum buffer size
      (an exception in the renderer). */
  datatype IterateResult = Stored(numIter: nat) | Exceeded

  /** One range per generation, each generation the rewrite of the one
      before, ranges tiling the buffer, two vertices per draw symbol, a
      buffer large enough for all ranges, and every generation after the
      axiom within the maximum buffer size. */
  ghost predicate Consistent(ss: seq<string>, rules: Rules, ds: seq<IterData>, bufSize: nat, maxBuf: nat) {
    && |ss| == |ds|
    && IsChain(ss, rules)
    && Contiguous(ds)
    && (forall i :: 0 <= i < |ds| ==> ds[i].count == 2 * DrawCount(ss[i]))
    && (ds != [] ==> NextFirst(ds) * Vec3Bytes <= bufSize)
    && (forall i :: 1 <= i < |ds| ==> End(ds[i]) * Vec3Bytes <= maxBuf)
  }

  /** Appending the next generation with its range, within the maximum, to a
      buffer grown to hold it keeps the state consistent. */
  lemma ConsistentExtend(ss: seq<string>, rules: Rules, ds: seq<IterData>, bufSize: nat, maxBuf: nat,
                         newBuf: nat)
    requires Consistent(ss, rules, ds, bufSize, maxBuf) && ss != []
    requires var next := Rewrite(ss[|ss| - 1], rules);
             End(IterData(NextFirst(ds), 2 * DrawCount(next))) * Vec3Bytes <= maxBuf
    requires var next := Rewrite(ss[|ss| - 1], rules);
             End(IterData(NextFirst(ds), 2 * DrawCount(next))) * Vec3Bytes <= newBuf
    ensures var next := Rewrite(ss[|ss| - 1], rules);
            Consistent(ss + [next], rules, ds + [IterData(NextFirst(ds), 2 * DrawCount(next))], newBuf, maxBuf)
  {
    var next := Rewrite(ss[|ss| - 1], rules);
    var rec := IterData(NextFirst(ds), 2 * DrawCount(next));
    AppendKeepsContiguous(ds, rec.count);
    var ss', ds' := ss + [next], ds + [rec];
    assert NextFirst(ds') == End(rec);
    assert forall i :: 0 <= i < |ds| ==> ds'[i] == ds[i] && ss'[i] == ss[i];
  }

  /** The vertex count of generations 0..n together: where the range of
      generation n ends once all of them are stored. */
  function Footprint(axiom: string, rules: Rules, n: nat): nat
    decreases n
  {
    2 * DrawCount(Generation(axiom, rules, n)) + (if n == 0 then 0 else Footprint(axiom, rules, n - 1))
  }

  lemma {:induction false} FootprintMonotone(axiom: string, rules: Rules, m: nat, n: nat)
    requires m <= n
    ensures Footprint(axiom, rules, m) <= Footprint(axiom, rules, n)
    decreases n
  {
    if m < n {
      FootprintMonotone(axiom, rules, m, n - 1);
    }
  }

  /** The stored ranges end where the footprint of the stored generations
      says. */
  lemma {:induction false} PrefixTotal(ss: seq<string>, rules: Rules, ds: seq<IterData>, k: nat)
    requires |ss| == |ds| && k < |ds| && IsChain(ss, rules)
    requires forall i :: 0 <= i < |ds| ==> ds[i].count == 2 * DrawCount(ss[i])
    ensures TotalCount(ds[..k + 1]) == Footprint(ss[0], rules, k)
    decreases k
  {
    ChainIsGenerations(ss, rules, k);
    var p := ds[..k + 1];
    assert p[..|p| - 1] == ds[..k] && p[|p| - 1] == ds[k];
    if k > 0 {
      PrefixTotal(ss, rules, ds, k - 1);
    } else {
      assert ds[..0] == [];
    }
  }

  /** In a consistent state, the next range starts at the footprint of the
      stored generations. */
  lemma NextFirstIsFootprint(ss: seq<string>, rules: Rules, ds: seq<IterData>, bufSize: nat, maxBuf: nat)
    requires Consistent(ss, rules, ds, bufSize, maxBuf) && ss != []
    ensures NextFirst(ds) == Footprint(ss[0], rules, |ss| - 1)
  {
    NextFirstIsTotal(ds);
    PrefixTotal(ss, rules, ds, |ss| - 1);
    assert ds[..|ds|] == ds;
  }

  /** Whether parse, asked for inIters iterations, runs the turtle over
      generation n: the axiom always; generation n >= 1 when n < inIters and
      generations 1..n-1 passed the capacity check, that is, when the last of
      them fits (the footprint only grows). */
  ghost predicate ParseInterprets(axiom: string, rules: Rules, inIters: nat, maxBuf: nat, n: nat) {
    n == 0 || (n < inIters && (n == 1 || Footprint(axiom, rules, n - 1) * Vec3Bytes <= maxBuf))
  }

  /** While parse has stored fewer generations than asked for, the next one
      is the rewrite of the last and parse runs the turtle over it: every
      stored generation after the axiom fitted within the maximum. */
  lemma NextInterpreted(ss: seq<string>, rules: Rules, ds: seq<IterData>, bufSize: nat, maxBuf: nat,
                        inIters: nat)
    requires Consistent(ss, rules, ds, bufSize, maxBuf) && 1 <= |ss| < inIters
    ensures Generation(ss[0], rules, |ss|) == Rewrite(ss[|ss| - 1], rules)
    ensures ParseInterprets(ss[0], rules, inIters, maxBuf, |ss|)
  {
    ChainIsGenerations(ss, rules, |ss| - 1);
    if |ss| > 1 {
      NextFirstIsFootprint(ss, rules, ds, bufSize, maxBuf);
      assert End(ds[|ds| - 1]) * Vec3Bytes <= maxBuf;
    }
  }

  /** A stream whose second generation would pop an empty stack: axiom
      FFFFA, rules A -> B and B -> ]. */
  const StopTokens: seq<string> := ["90", "3", "FFFFA", "A", "->", "B", "B", "->", "]"]

  lemma StopTokensGrammar()
    ensures Axiom(StopTokens) == "FFFFA"
    ensures RulesOf(StopTokens) == map['A' := "B", 'B' := "]"]
  {
    var ts := StopTokens;
    assert RulesFrom(map[], ts, 3) == RulesFrom(map['A' := "B"], ts, 6);
    assert RulesFrom(map['A' := "B"], ts, 6) == RulesFrom(map['A' := "B", 'B' := "]"], ts, 9);
  }

  lemma StopTokensGenerations()
    ensures var rules := map['A' := "B", 'B' := "]"];
            && Generation("FFFFA", rules, 1) == "FFFFB"
            && Generation("FFFFA", rules, 2) == "FFFF]"
  {
    var rules := map['A' := "B", 'B' := "]"];
    RewriteUntouched("FFFF", rules);
    RewriteSymbol('A', rules);
    RewriteSymbol('B', rules);
    assert "FFFFA" == "FFFF" + "A" && "FFFFB" == "FFFF" + "B";
    RewriteAppend("FFFF", "A", rules);
    RewriteAppend("FFFF", "B", rules);
  }

  lemma StopTokensShapes()
    ensures Nested("FFFFA") && Nested("FFFFB") && !Nested("FFFF]")
    ensures DrawCount("FFFFA") == 4 && DrawCount("FFFFB") == 4
  {
    var g0, g1, g2 := "FFFFA", "FFFFB", "FFFF]";
    assert g0[1..] == "FFFA" && g0[2..] == "FFA" && g0[3..] == "FA" && g0[4..] == "A" && "A"[1..] == [];
    assert g1[1..] == "FFFB" && g1[2..] == "FFB" && g1[3..] == "FB" && g1[4..] == "B" && "B"[1..] == [];
    assert g2[1..] == "FFF]" && g2[2..] == "FF]" && g2[3..] == "F]" && g2[4..] == "]";
  }

  /** With a 100-byte buffer and three iterations asked for, generation 1
      already needs 16 vertices (192 bytes), so parse stops before building
      generation 2: the stream meets parse's requirement although
      generation 2 is not nested. */
  lemma CapacityStopExample()
    ensures !Nested(Generation(Axiom(StopTokens), RulesOf(StopTokens), 2))
    ensures forall n: nat :: ParseInterprets(Axiom(StopTokens), RulesOf(StopTokens), 3, 100, n) ==>
              Nested(Generation(Axiom(StopTokens), RulesOf(StopTokens), n))
  {
    StopTokensGrammar();
    StopTokensGenerations();
    StopTokensShapes();
    var axiom, rules := "FFFFA", map['A' := "B", 'B' := "]"];
    assert Footprint(axiom, rules, 1) * Vec3Bytes == 192;
    forall n: nat | ParseInterprets(axiom, rules, 3, 100, n)
      ensures Nested(Generation(axiom, rules, n))
    {
      if n >= 2 {
        FootprintMonotone(axiom, rules, 1, n - 1);
      }
    }
  }

  /** The token loop of parse: the axiom is read into the read buffer after
      the angle and the iteration count, then one rule per triple of reads
      `key arrow replacement` for as long as a key can be read. A read past
      the end of the stream fails and leaves the buffer as it was. */
  method ReadGrammar(tokens: seq<string>) returns (axiom: string, rules: Rules)
    ensures axiom == Axiom(tokens) && rules == RulesOf(tokens)
  {
    var tmp: string := "";
    if 0 < |tokens| { tmp := tokens[0]; }
    if 1 < |tokens| { tmp := tokens[1]; }
    if 2 < |tokens| { tmp := tokens[2]; }
    axiom := tmp;
    rules := map[];
    var i := 3;
    while i < |tokens|
      invariant RulesFrom(rules, tokens, i) == RulesOf(tokens)
      decreases |tokens| - i
    {
      tmp := tokens[i];
      var key := KeyOf(tmp);
      if i + 1 < |tokens| { tmp := tokens[i + 1]; }
      if i + 2 < |tokens| { tmp := tokens[i + 2]; }
      assert tmp == Retained(tokens, i + 2);
      rules := rules[key := tmp];
      i := i + 3;
    }
  }

  class LSystem {
    /** The generations: strings[0] is the axiom. */
    var strings: seq<string>
    var rules: Rules
    /** The turning angle, in degrees. */
    var angle: real
    /** The vertex range of each generation. */
    var iterData: seq<IterData>
    /** The byte size of the vertex buffer. */
    var bufSize: nat
    /** MAX_BUF: the largest vertex buffer allowed, in bytes. */
    const maxBuf: nat
    /** The turtle's unit step (cos ang, sin ang, cos angZ). */
    const step: StepFn

    /** Valid: the state is consistent (see Consistent). */
    ghost predicate Valid()
      reads this
    {
      Consistent(strings, rules, iterData, bufSize, maxBuf)
    }

    /** An empty L-system with angle 0 and an empty buffer. */
    constructor (maxBuf: nat, step: StepFn)
      ensures Valid()
      ensures strings == [] && rules == map[] && angle == 0.0 && iterData == [] && bufSize == 0
      ensures this.maxBuf == maxBuf && this.step == step
    {
      strings, rules, angle, iterData, bufSize := [], map[], 0.0, [], 0;
      this.maxBuf, this.step := maxBuf, step;
    }

    /** Rewrite s with the current rules. */
    method ApplyRules(s: string) returns (r: string)
      ensures r == Rewrite(s, rules)
    {
      r := [];
      for i := 0 to |s|
        invariant r == Rewrite(s[..i], rules)
      {
        var ch := s[i];
        if ch in rules {
          r := r + rules[ch];
        } else {
          r := r + [ch];
        }
        RewriteAppend(s[..i], [ch], rules);
        RewriteSymbol(ch, rules);
        assert s[..i + 1] == s[..i] + [ch];
      }
      assert s[..|s|] == s;
    }

    /** The vertex list of s: the turtle interpretation with four parallel
        stacks for prev, curr, ang and angZ. A `]` with an empty stack is
        undefined behaviour, so s must be nested. */
    method CreateGeometry(s: string) returns (verts: seq<Vec3>)
      requires Nested(s)
      ensures verts == Interpret(s, angle, step)
      ensures |verts| == 2 * DrawCount(s)
    {
      verts := [];
      var curr, prev := Origin, Origin;
      var ang, angZ := 90.0, 90.0;
      var currStack, prevStack: seq<Vec3> := [], [];
      var angStack, angZStack: seq<real> := [], [];
      ghost var c := Start;
      assert s[0..] == s;
      for i := 0 to |s|
        invariant c.state == State(prev, curr, ang, angZ) && c.verts == verts
        invariant |prevStack| == |currStack| == |angStack| == |angZStack| == |c.stack|
        invariant forall k :: 0 <= k < |c.stack| ==>
                    c.stack[k] == State(prevStack[k], currStack[k], angStack[k], angZStack[k])
        invariant NoUnderflow(|c.stack|, s[i..])
        invariant Run(c, s[i..], angle, step) == Run(Start, s, angle, step)
      {
        var ch := s[i];
        assert s[i..][0] == ch && s[i..][1..] == s[i + 1..];
        c := Interpret1(c, ch, angle, step);
        if ch == 'f' || ch == 'F' || ch == 'g' || ch == 'G' {
          curr := curr.Plus(step(ang, angZ));
          verts := verts + [prev, curr];
          prev := curr;
        } else if ch == 's' || ch == 'S' {
          curr := curr.Plus(step(ang, angZ));
          prev := curr;
        } else if ch == '+' {
          ang := ang + angle;
        } else if ch == '-' {
          ang := ang - angle;
        } else if ch == '*' {
          angZ := angZ + angle;
        } else if ch == '/' {
          angZ := angZ - angle;
        } else if ch == '[' {
          prevStack := prevStack + [prev];
          currStack := currStack + [curr];
          angStack := angStack + [ang];
          angZStack := angZStack + [angZ];
        } else if ch == ']' {
          var top := |prevStack| - 1;
          prev, curr, ang, angZ := prevStack[top], currStack[top], angStack[top], angZStack[top];
          prevStack, currStack := prevStack[..top], currStack[..top];
          angStack, angZStack := angStack[..top], angZStack[..top];
        }
      }
      assert s[|s|..] == [];
    }

    /** Record the range of a new generation's vertices, starting where the
        last range ends, and grow the buffer to cover it if it is too small. */
    method AddVerts(verts: seq<Vec3>)
      modifies this`iterData, this`bufSize
      ensures iterData == old(iterData) + [IterData(NextFirst(old(iterData)), |verts|)]
      ensures var needed := NextFirst(iterData) * Vec3Bytes;
              bufSize == if needed > old(bufSize) then needed else old(bufSize)
    {
      var id: IterData;
      if iterData == [] {
        id := IterData(0, |verts|);
      } else {
        var last := iterData[|iterData| - 1];
        id := IterData(last.first + last.count, |verts|);
      }
      iterData := iterData + [id];
      var newSize := (id.first + id.count) * Vec3Bytes;
      if newSize > bufSize {
        bufSize := newSize;
      }
    }

    /** Store a new iteration: append the rewrite of the last generation and
        record its vertex range. */
    method StoreIteration(next: string, verts: seq<Vec3>)
      requires Valid() && strings != []
      requires next == Rewrite(strings[|strings| - 1], rules) && |verts| == 2 * DrawCount(next)
      requires (NextFirst(iterData) + |verts|) * Vec3Bytes <= maxBuf
      modifies this`strings, this`iterData, this`bufSize
      ensures Valid()
      ensures strings == old(strings) + [next]
      ensures iterData == old(iterData) + [IterData(NextFirst(old(iterData)), |verts|)]
      ensures var needed := (NextFirst(old(iterData)) + |verts|) * Vec3Bytes;
              bufSize == if needed > old(bufSize) then needed else old(bufSize)
    {
      ConsistentExtend(strings, rules, iterData, bufSize, maxBuf,
                       if (NextFirst(iterData) + |verts|) * Vec3Bytes > bufSize
                       then (NextFirst(iterData) + |verts|) * Vec3Bytes else bufSize);
      strings := strings + [next];
      AddVerts(verts);
    }

    /** Append the next generation, unless its geometry would make the buffer
        exceed MAX_BUF, in which case nothing changes. With no generation yet,
        nothing happens and 0 is reported. */
    method Iterate() returns (res: IterateResult)
      requires Valid()
      requires strings != [] ==> Nested(Rewrite(strings[|strings| - 1], rules))
      modifies this`strings, this`iterData, this`bufSize
      ensures Valid()
      ensures old(strings) == [] ==> res == Stored(0) && unchanged(this)
      ensures old(strings) != [] ==>
        var next := Rewrite(old(strings)[|old(strings)| - 1], rules);
        var rec := IterData(NextFirst(old(iterData)), 2 * DrawCount(next));
        if End(rec) * Vec3Bytes > maxBuf then
          res == Exceeded && unchanged(this)
        else
          && res == Stored(|old(strings)| + 1)
          && strings == old(strings) + [next]
          && iterData == old(iterData) + [rec]
          && bufSize == (if End(rec) * Vec3Bytes > old(bufSize) then End(rec) * Vec3Bytes else old(bufSize))
    {
      if strings == [] {
        return Stored(0);
      }
      var newString := ApplyRules(strings[|strings| - 1]);
      var verts := CreateGeometry(newString);
      var id := iterData[|iterData| - 1];
      ghost var rec := IterData(NextFirst(iterData), 2 * DrawCount(newString));
      assert id.first + id.count + |verts| == End(rec);
      if (id.first + id.count + |verts|) * Vec3Bytes > maxBuf {
        return Exceeded;
      }
      StoreIteration(newString, verts);
      res := Stored(|iterData|);
    }

    /** The iteration loop of parse: add generations until there are inIters
        of them, or until the next one would exceed MAX_BUF. axiom is the
        stored generation 0, b0 the buffer size before its geometry was
        added. */
    method IterateUpTo(inIters: nat, ghost axiom: string, ghost b0: nat)
      requires Valid() && strings == [axiom] && bufSize == Covering(b0, iterData)
      requires forall n: nat {:trigger ParseInterprets(axiom, rules, inIters, maxBuf, n)} ::
                 ParseInterprets(axiom, rules, inIters, maxBuf, n) ==>
                 Nested(Generation(axiom, rules, n))
      modifies this`strings, this`iterData, this`bufSize
      ensures Valid() && bufSize == Covering(b0, iterData)
      ensures 1 <= |strings| && (|strings| <= inIters || |strings| == 1) && strings[0] == axiom
      ensures |strings| < inIters ==>
                (NextFirst(iterData) + 2 * DrawCount(Rewrite(strings[|strings| - 1], rules))) * Vec3Bytes > maxBuf
    {
      while |strings| < inIters
        invariant Valid() && bufSize == Covering(b0, iterData)
        invariant 1 <= |strings| && (|strings| <= inIters || |strings| == 1) && strings[0] == axiom
        decreases inIters - |strings|
      {
        NextInterpreted(strings, rules, iterData, bufSize, maxBuf, inIters);
        assert Nested(Generation(axiom, rules, |strings|));
        ghost var ss, ds := strings, iterData;
        ghost var next := Rewrite(ss[|ss| - 1], rules);
        ghost var rec := IterData(NextFirst(ds), 2 * DrawCount(next));
        var r := Iterate();
        if r == Exceeded {
          break;
        }
        assert strings == ss + [next] && iterData == ds + [rec];
        CoveringAppend(b0, ds, rec);
      }
    }

    /** Replace the L-system by the one the token stream describes. tokens is
        the whole stream; inAngle and inIters are its first two tokens already
        converted. The axiom is the third token; after it come rule triples.
        Then generations are added until there are inIters of them (always at
        least the axiom's), or until the next one would exceed MAX_BUF. Every
        generation that parse runs the turtle over must be nested. The buffer
        only grows, to cover the last range. */
    method Parse(tokens: seq<string>, inAngle: real, inIters: nat)
      requires forall n: nat :: ParseInterprets(Axiom(tokens), RulesOf(tokens), inIters, maxBuf, n) ==>
                 Nested(Generation(Axiom(tokens), RulesOf(tokens), n))
      modifies this
      ensures Valid()
      ensures angle == inAngle && rules == RulesOf(tokens)
      ensures 1 <= |strings| && (|strings| <= inIters || |strings| == 1)
      ensures forall i :: 0 <= i < |strings| ==> strings[i] == Generation(Axiom(tokens), rules, i)
      ensures |strings| < inIters ==>
                (NextFirst(iterData) + 2 * DrawCount(Rewrite(strings[|strings| - 1], rules))) * Vec3Bytes > maxBuf
      ensures bufSize == Covering(old(bufSize), iterData)
    {
      var inAxiom, inRules := ReadGrammar(tokens);
      angle := inAngle;
      strings := [inAxiom];
      rules := inRules;
      iterData := [];
      assert inAxiom == Generation(Axiom(tokens), RulesOf(tokens), 0);
      var verts := CreateGeometry(strings[0]);
      AddVerts(verts);
      IterateUpTo(inIters, inAxiom, old(bufSize));
      forall i | 0 <= i < |strings|
        ensures strings[i] == Generation(Axiom(tokens), rules, i)
      {
        ChainIsGenerations(strings, rules, i);
      }
    }
  }
}
