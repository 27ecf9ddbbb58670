/** The turtle interpreter of createGeometry, with the trigonometric step kept
    abstract: what is modelled is which symbols emit vertices, which move, which
    turn, and how `[` and `]` save and restore the turtle's state. */
module Turtle {
  import opened Rewriting

  datatype Vec3 = Vec3(x: real, y: real, z: real) {
    function Plus(d: Vec3): Vec3 {
      Vec3(x + d.x, y + d.y, z + d.z)
    }
  }

  const Origin: Vec3 := Vec3(0.0, 0.0, 0.0)

  /** The displacement of one unit step for the headings `ang` and `angZ`, in
      degrees; the renderer uses (cos ang, sin ang, cos angZ). */
  type StepFn = (real, real) -> Vec3

  /** The turtle's state: previous and current position and the two headings. */
  datatype State = State(prev: Vec3, curr: Vec3, ang: real, angZ: real)

  /** Both positions at the origin, both headings at 90 degrees. */
  const Initial: State := State(Origin, Origin, 90.0, 90.0)

  /** A point of the interpretation: the state, the saved states (top last)
      and the vertices emitted so far. */
  datatype Config = Config(state: State, stack: seq<State>, verts: seq<Vec3>)

  const Start: Config := Config(Initial, [], [])

  predicate IsDraw(ch: char) {
    ch == 'f' || ch == 'F' || ch == 'g' || ch == 'G'
  }

  predicate IsMove(ch: char) {
    ch == 's' || ch == 'S'
  }

  predicate IsTurn(ch: char) {
    ch == '+' || ch == '-' || ch == '*' || ch == '/'
  }

  /** Symbols the interpreter does not react to. */
  predicate IsIgnored(ch: char) {
    !IsDraw(ch) && !IsMove(ch) && !IsTurn(ch) && ch != '[' && ch != ']'
  }

  /** The change of the stack height caused by one symbol. */
  function Delta(ch: char): int {
    if ch == '[' then 1 else if ch == ']' then -1 else 0
  }

  /** Number of `[` minus number of `]`. */
  function Depth(s: string): int
    decreases |s|
  {
    if s == [] then 0 else Delta(s[0]) + Depth(s[1..])
  }

  /** Number of symbols that draw a segment. */
  function DrawCount(s: string): nat
    decreases |s|
  {
    if s == [] then 0 else (if IsDraw(s[0]) then 1 else 0) + DrawCount(s[1..])
  }

  /** Starting from a stack of height d, no `]` of s meets an empty stack. */
  predicate NoUnderflow(d: int, s: string)
    decreases |s|
  {
    s == [] || (d + Delta(s[0]) >= 0 && NoUnderflow(d + Delta(s[0]), s[1..]))
  }

  /** Every prefix of s has at least as many `[` as `]`. */
  predicate Nested(s: string) {
    NoUnderflow(0, s)
  }

  /** Nested and with as many `[` as `]`. */
  predicate Balanced(s: string) {
    Nested(s) && Depth(s) == 0
  }

  /** The effect of one symbol (one pass of the interpreter's loop body). */
  function Interpret1(c: Config, ch: char, angle: real, step: StepFn): Config
    requires ch == ']' ==> c.stack != []
  {
    var t := c.state;
    if IsDraw(ch) then
      var curr := t.curr.Plus(step(t.ang, t.angZ));
      Config(State(curr, curr, t.ang, t.angZ), c.stack, c.verts + [t.prev, curr])
    else if IsMove(ch) then
      var curr := t.curr.Plus(step(t.ang, t.angZ));
      Config(State(curr, curr, t.ang, t.angZ), c.stack, c.verts)
    else if ch == '+' then c.(state := t.(ang := t.ang + angle))
    else if ch == '-' then c.(state := t.(ang := t.ang - angle))
    else if ch == '*' then c.(state := t.(angZ := t.angZ + angle))
    else if ch == '/' then c.(state := t.(angZ := t.angZ - angle))
    else if ch == '[' then c.(stack := c.stack + [t])
    else if ch == ']' then c.(state := c.stack[|c.stack| - 1], stack := c.stack[..|c.stack| - 1])
    else c
  }

  /** Interpret the symbols of s in order from c. The stack height tracks the
      bracket depth, two vertices are emitted per draw symbol, and vertices
      already emitted are never changed. */
  function Run(c: Config, s: string, angle: real, step: StepFn): (r: Config)
    requires NoUnderflow(|c.stack|, s)
    ensures |r.stack| == |c.stack| + Depth(s)
    ensures |r.verts| == |c.verts| + 2 * DrawCount(s)
    ensures r.verts[..|c.verts|] == c.verts
    decreases |s|
  {
    if s == [] then c else Run(Interpret1(c, s[0], angle, step), s[1..], angle, step)
  }

  /** The vertex list createGeometry returns for s. Every draw symbol
      contributes one segment, so the list has even length. */
  function Interpret(s: string, angle: real, step: StepFn): (verts: seq<Vec3>)
    requires Nested(s)
    ensures |verts| == 2 * DrawCount(s)
  {
    Run(Start, s, angle, step).verts
  }

  lemma {:induction false} DepthAppend(x: string, y: string)
    ensures Depth(x + y) == Depth(x) + Depth(y)
    decreases |x|
  {
    if x == [] {
      assert x + y == y;
    } else {
      assert (x + y)[1..] == x[1..] + y;
      DepthAppend(x[1..], y);
    }
  }

  /** s runs without underflow after x exactly when x does and s then runs
      from the height x leaves. */
  lemma {:induction false} NoUnderflowAppend(d: int, x: string, y: string)
    ensures NoUnderflow(d, x + y) <==> NoUnderflow(d, x) && NoUnderflow(d + Depth(x), y)
    decreases |x|
  {
    if x == [] {
      assert x + y == y;
    } else {
      assert (x + y)[0] == x[0];
      assert (x + y)[1..] == x[1..] + y;
      NoUnderflowAppend(d + Delta(x[0]), x[1..], y);
    }
  }

  /** A higher starting stack never causes an underflow a lower one avoids. */
  lemma {:induction false} NoUnderflowMonotone(d: int, e: int, s: string)
    requires d <= e && NoUnderflow(d, s)
    ensures NoUnderflow(e, s)
    decreases |s|
  {
    if s != [] {
      NoUnderflowMonotone(d + Delta(s[0]), e + Delta(s[0]), s[1..]);
    }
  }

  /** Interpreting x + y is interpreting y from where x leaves off. */
  lemma {:induction false} RunAppend(c: Config, x: string, y: string, angle: real, step: StepFn)
    requires NoUnderflow(|c.stack|, x + y)
    ensures NoUnderflow(|c.stack|, x) && NoUnderflow(|Run(c, x, angle, step).stack|, y)
    ensures Run(c, x + y, angle, step) == Run(Run(c, x, angle, step), y, angle, step)
    decreases |x|
  {
    NoUnderflowAppend(|c.stack|, x, y);
    if x == [] {
      assert x + y == y;
    } else {
      assert (x + y)[0] == x[0];
      assert (x + y)[1..] == x[1..] + y;
      RunAppend(Interpret1(c, x[0], angle, step), x[1..], y, angle, step);
    }
  }

  /** Stack discipline: a string that never pops below d entries from the top
      leaves the bottom |c.stack| - d saved states untouched. */
  lemma {:induction false} RunKeepsBase(c: Config, s: string, d: int, angle: real, step: StepFn)
    requires 0 <= d <= |c.stack| && NoUnderflow(d, s)
    ensures NoUnderflow(|c.stack|, s)
    ensures |c.stack| - d <= |Run(c, s, angle, step).stack|
    ensures Run(c, s, angle, step).stack[..|c.stack| - d] == c.stack[..|c.stack| - d]
    decreases |s|
  {
    NoUnderflowMonotone(d, |c.stack|, s);
    if s != [] {
      var c1 := Interpret1(c, s[0], angle, step);
      var d1 := d + Delta(s[0]);
      assert c1.stack[..|c.stack| - d] == c.stack[..|c.stack| - d];
      RunKeepsBase(c1, s[1..], d1, angle, step);
    }
  }

  /** Interpreting `[b]` is: push the state, interpret b, then pop. */
  lemma BracketSplit(c: Config, b: string, angle: real, step: StepFn)
    requires Balanced(b)
    ensures NoUnderflow(|c.stack|, "[" + b + "]")
    ensures var c1 := c.(stack := c.stack + [c.state]);
            && NoUnderflow(|c1.stack|, b) && |Run(c1, b, angle, step).stack| == |c1.stack|
            && Run(c, "[" + b + "]", angle, step) == Run(Run(c1, b, angle, step), "]", angle, step)
  {
    var c1 := c.(stack := c.stack + [c.state]);
    var s := "[" + b + "]";
    NoUnderflowMonotone(0, |c1.stack|, b);
    NoUnderflowAppend(|c1.stack|, b, "]");
    assert s[0] == '[' && s[1..] == b + "]";
    RunAppend(c1, b, "]", angle, step);
  }

  /** `]` restores exactly the state saved by its matching `[`: interpreting
      `[b]` for a balanced b gives back the starting state and stack. */
  lemma BracketRestores(c: Config, b: string, angle: real, step: StepFn)
    requires Balanced(b)
    ensures NoUnderflow(|c.stack|, "[" + b + "]")
    ensures Run(c, "[" + b + "]", angle, step).state == c.state
    ensures Run(c, "[" + b + "]", angle, step).stack == c.stack
  {
    BracketSplit(c, b, angle, step);
    var c1 := c.(stack := c.stack + [c.state]);
    RunKeepsBase(c1, b, 0, angle, step);
    var c2 := Run(c1, b, angle, step);
    assert c2.stack == c.stack + [c.state];
    assert "]"[0] == ']' && "]"[1..] == [];
    assert Run(c2, "]", angle, step) == Interpret1(c2, ']', angle, step);
  }

  /** For a balanced string the saved-state stack ends empty. */
  lemma BalancedEndsWithEmptyStack(s: string, angle: real, step: StepFn)
    requires Balanced(s)
    ensures Run(Start, s, angle, step).stack == []
  {
  }

  /** A draw symbol emits the segment from the previous to the new position,
      one unit step along the current headings; afterwards prev == curr. */
  lemma DrawEmitsSegment(c: Config, s: string, ch: char, angle: real, step: StepFn)
    requires IsDraw(ch) && NoUnderflow(|c.stack|, s + [ch])
    ensures NoUnderflow(|c.stack|, s)
    ensures var before := Run(c, s, angle, step).state;
            var after := Run(c, s + [ch], angle, step);
            && after.state.curr == before.curr.Plus(step(before.ang, before.angZ))
            && after.state.prev == after.state.curr
            && after.verts == Run(c, s, angle, step).verts + [before.prev, after.state.curr]
            && after.state.ang == before.ang && after.state.angZ == before.angZ
            && after.stack == Run(c, s, angle, step).stack
  {
    RunAppend(c, s, [ch], angle, step);
    assert [ch][1..] == [];
  }

  /** A move symbol advances one unit step without emitting; afterwards prev == curr. */
  lemma MoveEmitsNothing(c: Config, s: string, ch: char, angle: real, step: StepFn)
    requires IsMove(ch) && NoUnderflow(|c.stack|, s + [ch])
    ensures NoUnderflow(|c.stack|, s)
    ensures var before := Run(c, s, angle, step);
            var after := Run(c, s + [ch], angle, step);
            && after.state.curr == before.state.curr.Plus(step(before.state.ang, before.state.angZ))
            && after.state.prev == after.state.curr
            && after.verts == before.verts && after.stack == before.stack
            && after.state.ang == before.state.ang && after.state.angZ == before.state.angZ
  {
    RunAppend(c, s, [ch], angle, step);
    assert [ch][1..] == [];
  }

  /** The net rotation of s: +angle per `up` symbol, -angle per `down` symbol. */
  function TurnTotal(s: string, up: char, down: char, angle: real): real
    decreases |s|
  {
    if s == [] then 0.0
    else (if s[0] == up then angle else if s[0] == down then -angle else 0.0)
         + TurnTotal(s[1..], up, down, angle)
  }

  /** k turns by angle (negative k turns the other way). */
  function Turns(k: int, angle: real): real {
    (k as real) * angle
  }

  lemma {:induction false} TurnTotalIsCount(s: string, up: char, down: char, angle: real)
    requires up != down
    ensures TurnTotal(s, up, down, angle) == Turns(Count(up, s) - Count(down, s), angle)
    decreases |s|
  {
    if s != [] {
      TurnTotalIsCount(s[1..], up, down, angle);
      var k := Count(up, s[1..]) - Count(down, s[1..]);
      var d := Count(up, s) - Count(down, s) - k;
      assert ((k + d) as real) * angle == (d as real) * angle + (k as real) * angle;
    }
  }

  lemma {:induction false} TurnsAccumulate(c: Config, s: string, angle: real, step: StepFn)
    requires forall i :: 0 <= i < |s| ==> IsTurn(s[i])
    ensures NoUnderflow(|c.stack|, s)
    ensures var r := Run(c, s, angle, step);
            && r.stack == c.stack && r.verts == c.verts
            && r.state.prev == c.state.prev && r.state.curr == c.state.curr
            && r.state.ang == c.state.ang + TurnTotal(s, '+', '-', angle)
            && r.state.angZ == c.state.angZ + TurnTotal(s, '*', '/', angle)
    decreases |s|
  {
    if s != [] {
      TurnsAccumulate(Interpret1(c, s[0], angle, step), s[1..], angle, step);
    }
  }

  /** A string of turn symbols only changes the two headings: each `+`/`-`
      adds or subtracts the angle from ang, each `*`/`/` from angZ. */
  lemma TurnsOnlyRotate(c: Config, s: string, angle: real, step: StepFn)
    requires forall i :: 0 <= i < |s| ==> IsTurn(s[i])
    ensures NoUnderflow(|c.stack|, s)
    ensures var r := Run(c, s, angle, step);
            && r.stack == c.stack && r.verts == c.verts
            && r.state.prev == c.state.prev && r.state.curr == c.state.curr
            && r.state.ang == c.state.ang + Turns(Count('+', s) - Count('-', s), angle)
            && r.state.angZ == c.state.angZ + Turns(Count('*', s) - Count('/', s), angle)
  {
    TurnsAccumulate(c, s, angle, step);
    TurnTotalIsCount(s, '+', '-', angle);
    TurnTotalIsCount(s, '*', '/', angle);
  }

  /** Symbols the interpreter ignores can be inserted anywhere without
      changing anything. */
  lemma IgnoredSymbolInvisible(c: Config, x: string, ch: char, y: string, angle: real, step: StepFn)
    requires IsIgnored(ch) && NoUnderflow(|c.stack|, x + y)
    ensures NoUnderflow(|c.stack|, x + [ch] + y)
    ensures Run(c, x + [ch] + y, angle, step) == Run(c, x + y, angle, step)
  {
    RunAppend(c, x, y, angle, step);
    var cx := Run(c, x, angle, step);
    assert ([ch] + y)[0] == ch && ([ch] + y)[1..] == y;
    assert NoUnderflow(|cx.stack|, [ch] + y);
    NoUnderflowAppend(|c.stack|, x, [ch] + y);
    assert x + [ch] + y == x + ([ch] + y);
    RunAppend(c, x, [ch] + y, angle, step);
  }

  /** The branching example "F[+F]F": properly nested, three segments, and the
      stack ends empty. */
  lemma BranchExample(angle: real, step: StepFn)
    ensures Balanced("F[+F]F")
    ensures |Interpret("F[+F]F", angle, step)| == 6
    ensures Run(Start, "F[+F]F", angle, step).stack == []
  {
    var s := "F[+F]F";
    assert s[1..] == "[+F]F" && s[2..] == "+F]F" && s[3..] == "F]F" && s[4..] == "]F" && s[5..] == "F";
    assert "F"[1..] == [];
  }

  /** Rules that never rewrite a bracket and whose replacements are balanced. */
  ghost predicate WellNested(rules: Rules) {
    '[' !in rules && ']' !in rules && forall k :: k in rules ==> Balanced(rules[k])
  }

  /** Such rules preserve the bracket depth and the absence of underflow. */
  lemma {:induction false} RewriteKeepsNesting(d: int, s: string, rules: Rules)
    requires WellNested(rules) && d >= 0 && NoUnderflow(d, s)
    ensures Depth(Rewrite(s, rules)) == Depth(s)
    ensures NoUnderflow(d, Rewrite(s, rules))
    decreases |s|
  {
    if s != [] {
      var img, rest := Image(s[0], rules), Rewrite(s[1..], rules);
      var d1 := d + Delta(s[0]);
      RewriteKeepsNesting(d1, s[1..], rules);
      DepthAppend(img, rest);
      NoUnderflowAppend(d, img, rest);
      if s[0] in rules {
        NoUnderflowMonotone(0, d, img);
      } else {
        assert img == [s[0]] && img[1..] == [];
      }
    }
  }

  /** From a nested axiom, such rules make every generation nested. */
  lemma {:induction false} GenerationsNested(axiom: string, rules: Rules, n: nat)
    requires WellNested(rules) && Nested(axiom)
    ensures Nested(Generation(axiom, rules, n))
    decreases n
  {
    if n > 0 {
      GenerationsNested(axiom, rules, n - 1);
      RewriteKeepsNesting(0, Generation(axiom, rules, n - 1), rules);
    }
  }
}
