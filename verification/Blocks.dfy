/**
 A reference meaning for conditionals: the script is read as a tree of nested blocks and run
 recursively, without a condition stack. The flat interpreter is proved equal to it.
 */
module Blocks {
  import opened Bytes
  import opened Script
  import opened Interp

  /** A run of instructions and conditionals; a conditional has arms separated by OP_ELSE. */
  datatype Block =
    | End
    | Plain(ins: Ins, next: Block)
    | Cond(head: Ins, arms: Arms, next: Block)

  datatype Arms =
    | Last(body: Block, close: Ins)
    | More(body: Block, other: Ins, rest: Arms)

  predicate Opens(op: Byte) { op == OP_IF || op == OP_NOTIF }

  predicate Closes(op: Byte) { op == OP_ELSE || op == OP_ENDIF }

  /** What a parser has read, and what it has left. */
  datatype Parsed<+T> = Parsed(value: T, rest: Data)

  function ParseBlock(s: Data): (p: Option<Parsed<Block>>)
    ensures p.Some? ==> |p.value.rest| <= |s|
    ensures p.Some? && p.value.rest != [] ==> Decode(p.value.rest).Some? && Closes(Decode(p.value.rest).value.op)
    decreases |s|, 0
  {
    if s == [] then Some(Parsed(End, []))
    else
      match Decode(s)
      case None => None
      case Some(i) =>
        if Closes(i.op) then Some(Parsed(End, s))
        else if Opens(i.op) then
          match ParseArms(i.after)
          case None => None
          case Some(a) =>
            match ParseBlock(a.rest)
            case None => None
            case Some(b) => Some(Parsed(Cond(i, a.value, b.value), b.rest))
        else
          match ParseBlock(i.after)
          case None => None
          case Some(b) => Some(Parsed(Plain(i, b.value), b.rest))
  }

  function ParseArms(s: Data): (p: Option<Parsed<Arms>>)
    ensures p.Some? ==> |p.value.rest| < |s|
    decreases |s|, 1
  {
    match ParseBlock(s)
    case None => None
    case Some(b) =>
      if b.rest == [] then None
      else
        var i := Decode(b.rest).value;
        if i.op == OP_ENDIF then Some(Parsed(Last(b.value, i), i.after))
        else
          match ParseArms(i.after)
          case None => None
          case Some(a) => Some(Parsed(More(b.value, i, a.value), a.rest))
  }

  /** The block structure of a whole script, if it has one. */
  function Structure(s: Data): Option<Block> {
    match ParseBlock(s)
    case None => None
    case Some(b) => if b.rest == [] then Some(b.value) else None
  }

  /** Bracket counting, the other way to say a script is well formed. */
  predicate Balanced(s: Data, depth: nat)
    decreases |s|
  {
    if s == [] then depth == 0
    else
      match Decode(s)
      case None => false
      case Some(i) =>
        if Opens(i.op) then Balanced(i.after, depth + 1)
        else if i.op == OP_ELSE then depth > 0 && Balanced(i.after, depth)
        else if i.op == OP_ENDIF then depth > 0 && Balanced(i.after, depth - 1)
        else Balanced(i.after, depth)
  }

  /** An instruction that is not a bracket: run when live, only counted when skipped. */
  function RunPlain(env: Env, i: Ins, m: Machine, live: bool): Outcome {
    match Admit(i, m)
    case Halt(m1) => Halt(m1)
    case Run(m1) =>
      if live then Settle(ApplyOrPush(env, i, m1))
      else if OP_IF <= i.op <= OP_ENDIF then Halt(m1)
      else Settle(Run(m1))
  }

  /** A bracket instruction has no effect of its own but counts like any other. */
  function RunMark(i: Ins, m: Machine): Outcome {
    match Admit(i, m)
    case Halt(m1) => Halt(m1)
    case Run(m1) => Settle(Run(m1))
  }

  /** OP_IF and OP_NOTIF take their condition from the stack. */
  function Condition(i: Ins, m: Machine): bool {
    m.stack != [] && Truthy(Top(m.stack, 1)) != (i.op == OP_NOTIF)
  }

  function RunHead(i: Ins, m: Machine, live: bool): Outcome {
    match Admit(i, m)
    case Halt(m1) => Halt(m1)
    case Run(m1) =>
      if !live then Settle(Run(m1))
      else if m1.stack == [] then Halt(m1)
      else Settle(Run(With(m1, Drop(m1.stack, 1))))
  }

  function RunBlock(env: Env, b: Block, m: Machine, live: bool): Outcome {
    match b
    case End => Run(m)
    case Plain(i, next) =>
      (match RunPlain(env, i, m, live)
       case Halt(m') => Halt(m')
       case Run(m') => RunBlock(env, next, m', live))
    case Cond(i, arms, next) =>
      match RunHead(i, m, live)
      case Halt(m') => Halt(m')
      case Run(m') =>
        match RunArms(env, arms, m', live, live && Condition(i, m))
        case Halt(m'') => Halt(m'')
        case Run(m'') => RunBlock(env, next, m'', live)
  }

  /** taken says whether the next arm is chosen; every OP_ELSE turns it round. */
  function RunArms(env: Env, arms: Arms, m: Machine, live: bool, taken: bool): Outcome {
    match RunBlock(env, arms.body, m, live && taken)
    case Halt(m') => Halt(m')
    case Run(m') =>
      match arms
      case Last(_, i) => RunMark(i, m')
      case More(_, i, rest) =>
        match RunMark(i, m')
        case Halt(m'') => Halt(m'')
        case Run(m'') => RunArms(env, rest, m'', live, !taken)
  }

  /** Run what was parsed, then the rest of the bytes. */
  function Then(env: Env, o: Outcome, rest: Data, exec: seq<bool>): Outcome {
    match o
    case Halt(m) => Halt(m)
    case Run(m) => Eval(env, rest, m, exec)
  }

  lemma LivePush(exec: seq<bool>, t: bool)
    ensures Live(exec + [t]) <==> Live(exec) && t
    ensures (exec + [t])[|exec| := !t] == exec + [!t] && (exec + [t])[..|exec|] == exec
  {
    var e := exec + [t];
    if Live(e) {
      assert e[|exec|];
      forall j | 0 <= j < |exec| ensures exec[j] { assert e[j]; }
    }
  }

  lemma StepPlain(env: Env, i: Ins, m: Machine, exec: seq<bool>)
    requires !Opens(i.op) && !Closes(i.op)
    ensures Step(env, i, m, exec) ==
            match RunPlain(env, i, m, Live(exec))
            case Halt(m') => Stop(m')
            case Run(m') => Next(m', exec)
  {
    hide Admit, ApplyOrPush, Live;
  }

  lemma StepHead(env: Env, i: Ins, m: Machine, exec: seq<bool>)
    requires Opens(i.op)
    ensures Step(env, i, m, exec) ==
            match RunHead(i, m, Live(exec))
            case Halt(m') => Stop(m')
            case Run(m') => Next(m', exec + [Live(exec) && Condition(i, m)])
  {
    hide Live, Truthy;
  }

  lemma StepMark(env: Env, i: Ins, m: Machine, exec: seq<bool>, t: bool)
    requires Closes(i.op)
    ensures Step(env, i, m, exec + [t]) ==
            match RunMark(i, m)
            case Halt(m') => Stop(m')
            case Run(m') => Next(m', if i.op == OP_ELSE then exec + [!t] else exec)
  {
    hide Admit, Live;
    LivePush(exec, t);
  }

  lemma {:induction false} BlockRuns(env: Env, s: Data, m: Machine, exec: seq<bool>)
    ensures ParseBlock(s).None? ==> Eval(env, s, m, exec).Halt?
    ensures ParseBlock(s).Some? ==>
              var p := ParseBlock(s).value;
              Eval(env, s, m, exec) == Then(env, RunBlock(env, p.value, m, Live(exec)), p.rest, exec)
    decreases |s|, 0
  {
    hide Step, Decode, RunPlain, RunHead, RunMark, Live;
    if s != [] && Decode(s).Some? {
      var i := Decode(s).value;
      if Opens(i.op) {
        StepHead(env, i, m, exec);
        var t := Live(exec) && Condition(i, m);
        var h := RunHead(i, m, Live(exec));
        if h.Run? {
          ArmsRun(env, i.after, h.m, exec, t);
          if ParseArms(i.after).Some? {
            var a := ParseArms(i.after).value;
            var o := RunArms(env, a.value, h.m, Live(exec), t);
            if o.Run? {
              BlockRuns(env, a.rest, o.m, exec);
            }
          }
        }
      } else if !Closes(i.op) {
        StepPlain(env, i, m, exec);
        var o := RunPlain(env, i, m, Live(exec));
        if o.Run? {
          BlockRuns(env, i.after, o.m, exec);
        }
      }
    }
  }

  lemma {:induction false} ArmsRun(env: Env, s: Data, m: Machine, exec: seq<bool>, t: bool)
    ensures ParseArms(s).None? ==> Eval(env, s, m, exec + [t]).Halt?
    ensures ParseArms(s).Some? ==>
              var p := ParseArms(s).value;
              Eval(env, s, m, exec + [t]) == Then(env, RunArms(env, p.value, m, Live(exec), t), p.rest, exec)
    decreases |s|, 1
  {
    hide Step, Decode, RunPlain, RunHead, RunMark, Live;
    BlockRuns(env, s, m, exec + [t]);
    LivePush(exec, t);
    if ParseBlock(s).Some? {
      var b := ParseBlock(s).value;
      var o := RunBlock(env, b.value, m, Live(exec) && t);
      if b.rest != [] && o.Run? {
        var i := Decode(b.rest).value;
        StepMark(env, i, o.m, exec, t);
        var o' := RunMark(i, o.m);
        if i.op == OP_ELSE && o'.Run? {
          ArmsRun(env, i.after, o'.m, exec, !t);
        }
      }
    }
  }

  /**
   The flat interpreter and the recursive one agree on every script and every machine, in verdict
   and in the whole machine they end with; a script without block structure is never accepted.
   */
  lemma FlatIsStructured(env: Env, s: Data, m: Machine)
    ensures match Structure(s)
            case None => Eval(env, s, m, []).Halt?
            case Some(b) => Eval(env, s, m, []) == RunBlock(env, b, m, true)
  {
    hide Step, Decode;
    BlockRuns(env, s, m, []);
    if ParseBlock(s).Some? {
      var p := ParseBlock(s).value;
      if p.rest != [] {
        var o := RunBlock(env, p.value, m, true);
        if o.Run? {
          StrayMark(env, p.rest, o.m);
        }
      }
    }
  }

  lemma StrayMark(env: Env, s: Data, m: Machine)
    requires Decode(s).Some? && Closes(Decode(s).value.op)
    ensures Eval(env, s, m, []).Halt?
  {
    hide Decode, Admit;
  }

  lemma {:induction false} BlockBalance(s: Data, depth: nat)
    ensures ParseBlock(s).None? ==> !Balanced(s, depth)
    ensures ParseBlock(s).Some? ==> Balanced(s, depth) == Balanced(ParseBlock(s).value.rest, depth)
    decreases |s|, 0
  {
    hide Decode;
    if s != [] && Decode(s).Some? {
      var i := Decode(s).value;
      if Opens(i.op) {
        ArmsBalance(i.after, depth);
        if ParseArms(i.after).Some? {
          BlockBalance(ParseArms(i.after).value.rest, depth);
        }
      } else if !Closes(i.op) {
        BlockBalance(i.after, depth);
      }
    }
  }

  lemma {:induction false} ArmsBalance(s: Data, depth: nat)
    ensures ParseArms(s).None? ==> !Balanced(s, depth + 1)
    ensures ParseArms(s).Some? ==> Balanced(s, depth + 1) == Balanced(ParseArms(s).value.rest, depth)
    decreases |s|, 1
  {
    hide Decode;
    BlockBalance(s, depth + 1);
    if ParseBlock(s).Some? {
      var b := ParseBlock(s).value;
      if b.rest != [] && Decode(b.rest).value.op == OP_ELSE {
        ArmsBalance(Decode(b.rest).value.after, depth);
      }
    }
  }

  /** A script has a block structure exactly when its brackets balance and it can be read to the end. */
  lemma StructureIffBalanced(s: Data)
    ensures Structure(s).Some? <==> Balanced(s, 0)
  {
    hide Decode;
    BlockBalance(s, 0);
  }

  /** Code that is skipped leaves both stacks, the signed script and the signature checks alone. */
  lemma {:induction false} SkippedBlock(env: Env, b: Block, m: Machine)
    ensures var r := RunBlock(env, b, m, false).m; r == m.(ops := r.ops) && r.ops >= m.ops
    decreases b
  {
    hide Admit;
    match b
    case End =>
    case Plain(i, next) =>
      AdmitCounts(i, m);
      var o := RunPlain(env, i, m, false);
      if o.Run? {
        SkippedBlock(env, next, o.m);
      }
    case Cond(i, arms, next) =>
      AdmitCounts(i, m);
      var h := RunHead(i, m, false);
      if h.Run? {
        SkippedArms(env, arms, h.m, false);
        var o := RunArms(env, arms, h.m, false, false);
        if o.Run? {
          SkippedBlock(env, next, o.m);
        }
      }
  }

  lemma {:induction false} SkippedArms(env: Env, arms: Arms, m: Machine, taken: bool)
    ensures var r := RunArms(env, arms, m, false, taken).m; r == m.(ops := r.ops) && r.ops >= m.ops
    decreases arms
  {
    hide Admit;
    SkippedBlock(env, arms.body, m);
    var o := RunBlock(env, arms.body, m, false);
    if o.Run? {
      AdmitCounts(if arms.Last? then arms.close else arms.other, o.m);
      if arms.More? {
        var o' := RunMark(arms.other, o.m);
        if o'.Run? {
          SkippedArms(env, arms.rest, o'.m, !taken);
        }
      }
    }
  }

  lemma AdmitCounts(i: Ins, m: Machine)
    ensures var r := Admit(i, m).m; r == m.(ops := r.ops) && m.ops <= r.ops <= m.ops + 1
  {
  }
}
