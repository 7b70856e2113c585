/** The two-pass assembler, a label-level semantics of its source, and why the assembled program
    runs as the source does. */
module Assembler {
  import opened Base
  import U = Uvm

  // ---- Source -----------------------------------------------------------------------------

  // What a directive or an operand can denote.
  datatype Value = Number(n: int) | Text(s: string) | Truth(b: bool) | Compound

  // A source is taken apart into labels, constants, metadata and instructions with their tokens.
  datatype Item =
    | Label(name: string, line: nat)
    | Constant(name: string, value: Value, line: nat)
    | Metadata(key: string, value: Value, line: nat)
    | Code(op: U.Opcode, tokens: seq<string>, line: nat)

  // How text reads as a number, in base ten or sixteen, and how it is stripped.
  datatype Reader = Reader(strip: string -> string, readInt: string -> Option<int>, readHex: string -> Option<int>)

  // Stripping twice is stripping once, and nothing that starts like a signed hexadecimal number
  // is a decimal one.
  ghost predicate Lawful(r: Reader) {
    && (forall s :: r.strip(r.strip(s)) == r.strip(s))
    && (forall s :: LooksNegativeHex(s) ==> r.readInt(s).None?)
  }

  predicate LooksHex(s: string) {
    |s| >= 2 && s[0] == '0' && (s[1] == 'x' || s[1] == 'X')
  }

  predicate LooksNegativeHex(s: string) {
    |s| >= 1 && s[0] == '-' && LooksHex(s[1..])
  }

  function NumberOrText(n: Option<int>, s: string): Value {
    if n.Some? then Number(n.value) else Text(s)
  }

  function ParseScalarToken(r: Reader, token: string): Value {
    var s := r.strip(token);
    NumberOrText(if LooksHex(s) || LooksNegativeHex(s) then r.readHex(s) else r.readInt(s), s)
  }

  // What the virtual machine makes of an operand it is given.
  function ParseOperand(r: Reader, v: Value): Value {
    match v
    case Truth(b) => Number(if b then 1 else 0)
    case Text(t) => var s := r.strip(t); NumberOrText(if LooksHex(s) then r.readHex(s) else r.readInt(s), s)
    case _ => v
  }

  // A token is parsed once and for all.
  lemma TokensAreStable(r: Reader, token: string)
    requires Lawful(r)
    ensures ParseOperand(r, ParseScalarToken(r, token)) == ParseScalarToken(r, token)
  {
  }

  // ---- Assembling -------------------------------------------------------------------------

  function CodeBefore(items: seq<Item>, pos: nat): nat
    requires pos <= |items|
    ensures CodeBefore(items, pos) <= pos
  {
    if pos == 0 then 0 else CodeBefore(items, pos - 1) + (if items[pos - 1].Code? then 1 else 0)
  }

  type Labels = map<string, nat>
  type Constants = map<string, Value>

  datatype AssemblyError =
    | DuplicateLabel(name: string, line: nat)
    | DuplicateConstant(name: string, line: nat)
    | UnknownOpcode(line: nat)
    | UnknownConstant(name: string, line: nat)
    | WrongOperandCount(line: nat)
    | WrongOperandType(line: nat)

  predicate IsJump(op: U.Opcode) {
    op.JUMP? || op.JUMPI?
  }

  // The label a jump operand names, with or without a leading at sign.
  function NamedLabel(labels: Labels, op: U.Opcode, index: nat, token: string): Option<string> {
    if !IsJump(op) || index != 0 then None
    else if token in labels then Some(token)
    else if |token| >= 1 && token[0] == '@' && token[1..] in labels then Some(token[1..])
    else None
  }

  function Normalize(v: Value): Value {
    if v.Truth? then Number(if v.b then 1 else 0) else v
  }

  function ResolveOperand(r: Reader, labels: Labels, constants: Constants, op: U.Opcode, index: nat, token: string, line: nat): Result<Value, AssemblyError> {
    var named := NamedLabel(labels, op, index, token);
    if named.Some? then Success(Number(labels[named.value]))
    else if |token| >= 1 && token[0] == '@' then
      if token[1..] in constants then Success(Normalize(constants[token[1..]])) else Failure(UnknownConstant(token[1..], line))
    else Success(ParseScalarToken(r, token))
  }

  function ResolveOperands(r: Reader, labels: Labels, constants: Constants, op: U.Opcode, tokens: seq<string>, line: nat): Result<seq<Value>, AssemblyError> {
    if tokens == [] then Success([]) else
    var front :- ResolveOperands(r, labels, constants, op, tokens[..|tokens| - 1], line);
    var last :- ResolveOperand(r, labels, constants, op, |tokens| - 1, tokens[|tokens| - 1], line);
    Success(front + [last])
  }

  // Pushes and jumps take a number, every other operand is text.
  function ValidationError(op: U.Opcode, operands: seq<Value>, line: nat): Option<AssemblyError> {
    if |operands| != U.OperandCount(op) then Some(WrongOperandCount(line))
    else if exists i :: 0 <= i < |operands| && !(if op.PUSH? || IsJump(op) then operands[i].Number? else operands[i].Text?)
    then Some(WrongOperandType(line))
    else None
  }

  datatype Assembled = Assembled(op: U.Opcode, operands: seq<Value>)

  function AssembleCode(r: Reader, labels: Labels, constants: Constants, item: Item): Result<Assembled, AssemblyError>
    requires item.Code?
  {
    var operands :- ResolveOperands(r, labels, constants, item.op, item.tokens, item.line);
    var error := ValidationError(item.op, operands, item.line);
    if error.Some? then Failure(error.value) else Success(Assembled(item.op, operands))
  }

  ghost predicate IsLabelAt(items: seq<Item>, i: int, l: string) {
    0 <= i < |items| && items[i].Label? && items[i].name == l
  }

  ghost predicate HasLabel(items: seq<Item>, l: string) {
    exists i :: IsLabelAt(items, i, l)
  }

  // Every label stands for the number of instructions before it, and none is defined twice.
  ghost predicate LabelsCollected(items: seq<Item>, labels: Labels) {
    && (forall l :: l in labels ==> HasLabel(items, l))
    && (forall i, l :: IsLabelAt(items, i, l) ==> l in labels && labels[l] == CodeBefore(items, i))
    && (forall i, j, l :: IsLabelAt(items, i, l) && IsLabelAt(items, j, l) ==> i == j)
  }

  ghost predicate IsConstantAt(items: seq<Item>, i: int, c: string) {
    0 <= i < |items| && items[i].Constant? && items[i].name == c
  }

  ghost predicate HasConstant(items: seq<Item>, c: string) {
    exists i :: IsConstantAt(items, i, c)
  }

  ghost predicate ConstantsCollected(items: seq<Item>, constants: Constants) {
    && (forall c :: c in constants ==> HasConstant(items, c))
    && (forall i, c :: IsConstantAt(items, i, c) ==> c in constants && constants[c] == items[i].value)
    && (forall i, j, c :: IsConstantAt(items, i, c) && IsConstantAt(items, j, c) ==> i == j)
  }

  function Codes(items: seq<Item>): (codes: seq<Item>)
    ensures |codes| == CodeBefore(items, |items|)
    ensures forall k :: 0 <= k < |codes| ==> codes[k].Code?
  {
    if items == [] then [] else
    var last := items[|items| - 1];
    CountOfPrefix(items, |items| - 1, |items| - 1);
    Codes(items[..|items| - 1]) + (if last.Code? then [last] else [])
  }

  lemma {:induction false} CountOfPrefix(items: seq<Item>, n: nat, pos: nat)
    requires pos <= n <= |items|
    ensures CodeBefore(items[..n], pos) == CodeBefore(items, pos)
  {
    if pos > 0 {
      CountOfPrefix(items, n, pos - 1);
    }
  }

  lemma CountOfExtension(items: seq<Item>, item: Item, pos: nat)
    requires pos <= |items|
    ensures CodeBefore(items + [item], pos) == CodeBefore(items, pos)
  {
    CountOfPrefix(items + [item], |items|, pos);
    assert (items + [item])[..|items|] == items;
  }

  // An instruction of the source is the one at the number of instructions before it.
  lemma {:induction false} CodeIsAtItsCount(items: seq<Item>, pos: nat)
    requires pos < |items| && items[pos].Code?
    ensures CodeBefore(items, pos) < |Codes(items)| && Codes(items)[CodeBefore(items, pos)] == items[pos]
    decreases |items|
  {
    var front := items[..|items| - 1];
    CountOfPrefix(items, |items| - 1, |items| - 1);
    if pos < |front| {
      CodeIsAtItsCount(front, pos);
      CountOfPrefix(items, |items| - 1, pos);
    }
  }

  lemma LabelsMore(items: seq<Item>, labels: Labels, item: Item)
    requires LabelsCollected(items, labels) && (item.Label? ==> item.name !in labels)
    ensures LabelsCollected(items + [item], if item.Label? then labels[item.name := CodeBefore(items, |items|)] else labels)
  {
    hide CodeBefore;
    var all := items + [item];
    var more := if item.Label? then labels[item.name := CodeBefore(items, |items|)] else labels;
    forall i, l | IsLabelAt(all, i, l)
      ensures l in more && more[l] == CodeBefore(all, i)
      ensures i < |items| ==> IsLabelAt(items, i, l)
    {
      CountOfExtension(items, item, i);
      assert i < |items| ==> IsLabelAt(items, i, l);
    }
    forall l | l in more
      ensures HasLabel(all, l)
    {
      if l in labels {
        var i :| IsLabelAt(items, i, l);
        assert IsLabelAt(all, i, l);
      } else {
        assert IsLabelAt(all, |items|, l);
      }
    }
  }

  lemma ConstantsMore(items: seq<Item>, constants: Constants, item: Item)
    requires ConstantsCollected(items, constants) && (item.Constant? ==> item.name !in constants)
    ensures ConstantsCollected(items + [item], if item.Constant? then constants[item.name := item.value] else constants)
  {
    var all := items + [item];
    var more := if item.Constant? then constants[item.name := item.value] else constants;
    forall i, c | IsConstantAt(all, i, c)
      ensures c in more && more[c] == all[i].value
      ensures i < |items| ==> IsConstantAt(items, i, c)
    {
      assert i < |items| ==> IsConstantAt(items, i, c);
    }
    forall c | c in more
      ensures HasConstant(all, c)
    {
      if c in constants {
        var i :| IsConstantAt(items, i, c);
        assert IsConstantAt(all, i, c);
      } else {
        assert IsConstantAt(all, |items|, c);
      }
    }
  }

  lemma CodesMore(items: seq<Item>, item: Item)
    ensures Codes(items + [item]) == Codes(items) + (if item.Code? then [item] else [])
  {
    assert (items + [item])[..|items|] == items;
  }

  // What the first pass can stumble over.
  ghost predicate FirstPassFault(items: seq<Item>, e: AssemblyError) {
    match e
    case DuplicateLabel(l, _) => exists i, j :: i < j && IsLabelAt(items, i, l) && IsLabelAt(items, j, l)
    case DuplicateConstant(c, _) => exists i, j :: i < j && IsConstantAt(items, i, c) && IsConstantAt(items, j, c)
    case UnknownOpcode(_) => exists i :: 0 <= i < |items| && items[i].Code? && items[i].op.Unknown?
    case _ => false
  }

  ghost predicate KnownOpcodes(items: seq<Item>) {
    forall i :: 0 <= i < |items| && items[i].Code? ==> !items[i].op.Unknown?
  }

  datatype Collection = Collection(labels: Labels, constants: Constants, codes: seq<Item>)

  method FirstPass(items: seq<Item>) returns (r: Result<Collection, AssemblyError>)
    ensures r.Success? ==>
              var c := r.value;
              LabelsCollected(items, c.labels) && ConstantsCollected(items, c.constants) && c.codes == Codes(items) && KnownOpcodes(items)
    ensures r.Failure? ==> FirstPassFault(items, r.error)
  {
    hide LabelsCollected, ConstantsCollected, Codes;
    var labels: Labels, constants: Constants, codes: seq<Item> := map[], map[], [];
    NothingCollected();
    assert items[..0] == [];
    for i := 0 to |items|
      invariant LabelsCollected(items[..i], labels) && ConstantsCollected(items[..i], constants)
      invariant codes == Codes(items[..i]) && KnownOpcodes(items[..i])
    {
      var item := items[i];
      assert items[..i + 1] == items[..i] + [item];
      if item.Label? && item.name in labels {
        DuplicateFound(items, i, labels, constants);
        return Failure(DuplicateLabel(item.name, item.line));
      }
      if item.Constant? && item.name in constants {
        DuplicateFound(items, i, labels, constants);
        return Failure(DuplicateConstant(item.name, item.line));
      }
      if item.Code? && item.op.Unknown? {
        return Failure(UnknownOpcode(item.line));
      }
      LabelsMore(items[..i], labels, item);
      ConstantsMore(items[..i], constants, item);
      CodesMore(items[..i], item);
      CountOfPrefix(items, i, i);
      match item {
        case Label(name, _) => labels := labels[name := |codes|];
        case Constant(name, value, _) => constants := constants[name := value];
        case Metadata(_, _, _) =>
        case Code(_, _, _) => codes := codes + [item];
      }
    }
    assert items[..|items|] == items;
    return Success(Collection(labels, constants, codes));
  }

  lemma NothingCollected()
    ensures LabelsCollected([], map[]) && ConstantsCollected([], map[]) && Codes([]) == []
  {
  }

  lemma DuplicateFound(items: seq<Item>, i: nat, labels: Labels, constants: Constants)
    requires i < |items| && LabelsCollected(items[..i], labels) && ConstantsCollected(items[..i], constants)
    ensures items[i].Label? && items[i].name in labels ==> FirstPassFault(items, DuplicateLabel(items[i].name, items[i].line))
    ensures items[i].Constant? && items[i].name in constants ==> FirstPassFault(items, DuplicateConstant(items[i].name, items[i].line))
  {
    if items[i].Label? && items[i].name in labels {
      assert HasLabel(items[..i], items[i].name);
      var j :| IsLabelAt(items[..i], j, items[i].name);
      assert IsLabelAt(items, j, items[i].name) && IsLabelAt(items, i, items[i].name);
    }
    if items[i].Constant? && items[i].name in constants {
      assert HasConstant(items[..i], items[i].name);
      var j :| IsConstantAt(items[..i], j, items[i].name);
      assert IsConstantAt(items, j, items[i].name) && IsConstantAt(items, i, items[i].name);
    }
  }

  datatype Assembly = Assembly(program: seq<Assembled>, labels: Labels, constants: Constants, sourceLines: seq<nat>)

  method SecondPass(r: Reader, c: Collection) returns (result: Result<Assembly, AssemblyError>)
    requires forall k :: 0 <= k < |c.codes| ==> c.codes[k].Code?
    ensures result.Success? ==>
              var a := result.value;
              && a.labels == c.labels && a.constants == c.constants && |a.program| == |a.sourceLines| == |c.codes|
              && forall k :: 0 <= k < |c.codes| ==>
                   AssembleCode(r, c.labels, c.constants, c.codes[k]) == Success(a.program[k]) && a.sourceLines[k] == c.codes[k].line
    ensures result.Failure? ==>
              exists k :: 0 <= k < |c.codes| && AssembleCode(r, c.labels, c.constants, c.codes[k]) == Failure(result.error)
  {
    hide AssembleCode;
    var program: seq<Assembled>, sourceLines: seq<nat> := [], [];
    for i := 0 to |c.codes|
      invariant |program| == |sourceLines| == i
      invariant forall k :: 0 <= k < i ==>
                  AssembleCode(r, c.labels, c.constants, c.codes[k]) == Success(program[k]) && sourceLines[k] == c.codes[k].line
    {
      var code := AssembleCode(r, c.labels, c.constants, c.codes[i]);
      if code.Failure? {
        return Failure(code.error);
      }
      program := program + [code.value];
      sourceLines := sourceLines + [c.codes[i].line];
    }
    return Success(Assembly(program, c.labels, c.constants, sourceLines));
  }

  // The assembled program belongs to the source.
  ghost predicate Assembles(r: Reader, items: seq<Item>, a: Assembly) {
    && LabelsCollected(items, a.labels) && ConstantsCollected(items, a.constants) && KnownOpcodes(items)
    && |a.program| == |a.sourceLines| == |Codes(items)|
    && forall k :: 0 <= k < |Codes(items)| ==>
         AssembleCode(r, a.labels, a.constants, Codes(items)[k]) == Success(a.program[k]) && a.sourceLines[k] == Codes(items)[k].line
  }

  // An assembly belongs to its source, an error names a fault of it.
  ghost predicate Outcome(r: Reader, items: seq<Item>, result: Result<Assembly, AssemblyError>) {
    && (result.Success? ==> Assembles(r, items, result.value))
    && (result.Failure? ==>
          FirstPassFault(items, result.error)
          || exists labels, constants, k ::
               LabelsCollected(items, labels) && ConstantsCollected(items, constants) && 0 <= k < |Codes(items)|
               && AssembleCode(r, labels, constants, Codes(items)[k]) == Failure(result.error))
  }

  method AssembleSource(r: Reader, items: seq<Item>) returns (result: Result<Assembly, AssemblyError>)
    ensures Outcome(r, items, result)
  {
    hide LabelsCollected, ConstantsCollected, Codes, AssembleCode;
    var collection := FirstPass(items);
    if collection.Failure? {
      return Failure(collection.error);
    }
    result := SecondPass(r, collection.value);
  }

  // ---- What the source means --------------------------------------------------------------

  function ToOperand(v: Value): U.Operand {
    match v
    case Number(n) => U.Word(n)
    case Text(s) => U.Key(s)
    case _ => U.Other
  }

  function ToOperands(values: seq<Value>): (operands: seq<U.Operand>)
    ensures |operands| == |values|
  {
    seq(|values|, i requires 0 <= i < |values| => ToOperand(values[i]))
  }

  // The program as the virtual machine reads it.
  function LoadedOperands(r: Reader, values: seq<Value>): (operands: seq<U.Operand>)
    ensures |operands| == |values|
  {
    seq(|values|, i requires 0 <= i < |values| => ToOperand(ParseOperand(r, values[i])))
  }

  function Loaded(r: Reader, program: seq<Assembled>): (p: U.Program)
    ensures |p| == |program|
  {
    seq(|program|, k requires 0 <= k < |program| => U.Instruction(program[k].op, LoadedOperands(r, program[k].operands)))
  }

  // The place of an instruction in the source.
  function PositionOf(items: seq<Item>, k: nat, from: nat): nat
    requires from <= |items|
    ensures PositionOf(items, k, from) <= |items|
    decreases |items| - from
  {
    if from == |items| || (items[from].Code? && CodeBefore(items, from) >= k) then from else PositionOf(items, k, from + 1)
  }

  lemma {:induction false} PositionHasCount(items: seq<Item>, k: nat, from: nat)
    requires from <= |items| && CodeBefore(items, from) <= k < CodeBefore(items, |items|)
    ensures CodeBefore(items, PositionOf(items, k, from)) == k
    decreases |items| - from
  {
    if !(from == |items| || (items[from].Code? && CodeBefore(items, from) >= k)) {
      PositionHasCount(items, k, from + 1);
    }
  }

  // Where labels stand in the source.
  ghost predicate Placed(items: seq<Item>, places: map<string, nat>) {
    && (forall l :: l in places ==> IsLabelAt(items, places[l], l))
    && (forall i, l :: IsLabelAt(items, i, l) ==> l in places && places[l] == i)
  }

  // One instruction of the source. A jump goes to the place of the label it names; other operands
  // are what their tokens denote. The signal holds the place in the source to go on at.
  function SourceStep(r: Reader, items: seq<Item>, places: map<string, nat>, constants: Constants, item: Item, ctx: U.Context, m: U.Memory): U.StepResult
    requires item.Code?
  {
    var destination := if item.tokens == [] then None else NamedLabel(places, item.op, 0, item.tokens[0]);
    if destination.Some? then
      if item.op.JUMP? then U.StepResult(m, Success(Some(places[destination.value])))
      else if m.stack == [] then U.Raise(m, U.StackUnderflow)
      else U.StepResult(U.Popped(m), Success(if U.Top(m) != 0 then Some(places[destination.value]) else None))
    else
      var values := ResolveOperands(r, map[], constants, item.op, item.tokens, item.line);
      var step := U.Step(U.Instruction(item.op, if values.Success? then ToOperands(values.value) else []), ctx, m, CodeBefore(items, |items|));
      if step.signal.Success? && step.signal.value.Some?
      then U.StepResult(step.m, Success(Some(PositionOf(items, step.signal.value.value, 0)))) else step
  }

  lemma SourceStepCosts(r: Reader, items: seq<Item>, places: map<string, nat>, constants: Constants, item: Item, ctx: U.Context, m: U.Memory)
    requires item.Code? && !item.op.HALT? && SourceStep(r, items, places, constants, item, ctx, m).signal.Success?
    ensures U.GasCost(item.op).Some? && U.GasCost(item.op).value >= 1
  {
    hide U.Step, ResolveOperands, PositionOf;
    var destination := if item.tokens == [] then None else NamedLabel(places, item.op, 0, item.tokens[0]);
    if destination.None? {
      var values := ResolveOperands(r, map[], constants, item.op, item.tokens, item.line);
      U.GoingOnCosts(U.Instruction(item.op, if values.Success? then ToOperands(values.value) else []), ctx, m, CodeBefore(items, |items|));
    }
  }

  // A run of the source, from a place in it; labels and directives are passed over for free.
  function SourceRun(r: Reader, items: seq<Item>, places: map<string, nat>, constants: Constants, ctx: U.Context, m: U.Memory, pos: nat, gas: nat): U.Final
    decreases gas, |items| - pos
  {
    if pos >= |items| then U.Final(U.Completed, m, pos, gas)
    else if !items[pos].Code? then SourceRun(r, items, places, constants, ctx, m, pos + 1, gas)
    else
      var op := items[pos].op;
      var cost := U.GasCost(op);
      if cost.None? then U.Final(U.BadOpcode(op), m, pos, gas) else
      if gas < cost.value then U.Final(U.Exhausted(op), m, pos, 0) else
      var s := SourceStep(r, items, places, constants, items[pos], ctx, m);
      var left := gas - cost.value;
      if s.signal.Failure? then U.Final(U.Trapping(s.signal.error), s.m, pos, left) else
      if op.HALT? then U.Final(U.Completed, s.m, pos, left) else
      SourceStepCosts(r, items, places, constants, items[pos], ctx, m);
      SourceRun(r, items, places, constants, ctx, s.m, if s.signal.value.Some? then s.signal.value.value else pos + 1, left)
  }

  // ---- The assembled program runs as the source does --------------------------------------

  // The number that text reads as in the virtual machine, if any.
  function Reading(r: Reader, s: string): Option<int> {
    if LooksHex(r.strip(s)) then r.readHex(r.strip(s)) else r.readInt(r.strip(s))
  }

  // Not text that reads as a number or has something to strip.
  predicate Plain(r: Reader, v: Value) {
    v.Text? ==> r.strip(v.s) == v.s && Reading(r, v.s).None?
  }

  // The virtual machine takes exactly the plain constants for what they are.
  lemma OnlyPlainConstantsAreStable(r: Reader, v: Value)
    ensures ParseOperand(r, Normalize(v)) == Normalize(v) <==> Plain(r, v)
  {
  }

  predicate NamesConstant(labels: Labels, constants: Constants, op: U.Opcode, index: nat, token: string) {
    NamedLabel(labels, op, index, token).None? && |token| >= 1 && token[0] == '@' && token[1..] in constants
  }

  ghost predicate PlainTokens(r: Reader, labels: Labels, constants: Constants, op: U.Opcode, tokens: seq<string>) {
    forall k :: 0 <= k < |tokens| && NamesConstant(labels, constants, op, k, tokens[k]) ==> Plain(r, constants[tokens[k][1..]])
  }

  // Every constant that an instruction names is plain.
  ghost predicate PlainlyUsed(r: Reader, items: seq<Item>, labels: Labels, constants: Constants) {
    forall i :: 0 <= i < |items| && items[i].Code? ==> PlainTokens(r, labels, constants, items[i].op, items[i].tokens)
  }

  // Every label that a jump names has an instruction after it.
  ghost predicate LabelsInside(items: seq<Item>, labels: Labels) {
    forall i :: 0 <= i < |items| && items[i].Code? && items[i].tokens != [] ==>
      var named := NamedLabel(labels, items[i].op, 0, items[i].tokens[0]);
      named.Some? ==> labels[named.value] < CodeBefore(items, |items|)
  }

  lemma OperandIsStable(r: Reader, labels: Labels, constants: Constants, op: U.Opcode, index: nat, token: string, line: nat)
    requires Lawful(r) && (NamesConstant(labels, constants, op, index, token) ==> Plain(r, constants[token[1..]]))
    requires ResolveOperand(r, labels, constants, op, index, token, line).Success?
    ensures var v := ResolveOperand(r, labels, constants, op, index, token, line).value; ParseOperand(r, v) == v
    ensures NamedLabel(labels, op, index, token).None? ==>
              ResolveOperand(r, map[], constants, op, index, token, line) == ResolveOperand(r, labels, constants, op, index, token, line)
  {
    hide ParseScalarToken, Lawful, ParseOperand, Plain;
    if NamedLabel(labels, op, index, token).Some? {
      NumbersStay(r, labels[NamedLabel(labels, op, index, token).value]);
    } else if |token| >= 1 && token[0] == '@' {
      OnlyPlainConstantsAreStable(r, constants[token[1..]]);
    } else {
      TokensAreStable(r, token);
    }
  }

  lemma NumbersStay(r: Reader, n: int)
    ensures ParseOperand(r, Number(n)) == Number(n)
  {
  }

  lemma {:induction false} OperandsAreStable(r: Reader, labels: Labels, constants: Constants, op: U.Opcode, tokens: seq<string>, line: nat)
    requires Lawful(r) && PlainTokens(r, labels, constants, op, tokens) && ResolveOperands(r, labels, constants, op, tokens, line).Success?
    ensures var values := ResolveOperands(r, labels, constants, op, tokens, line).value;
            |values| == |tokens| && ToOperands(values) == LoadedOperands(r, values)
    ensures (tokens == [] || NamedLabel(labels, op, 0, tokens[0]).None?) ==>
              ResolveOperands(r, map[], constants, op, tokens, line) == ResolveOperands(r, labels, constants, op, tokens, line)
  {
    hide ResolveOperand, NamedLabel, NamesConstant, Lawful, Plain, ParseOperand, ToOperands, LoadedOperands, PlainTokens;
    if tokens != [] {
      var front, last := tokens[..|tokens| - 1], tokens[|tokens| - 1];
      PlainFront(r, labels, constants, op, tokens);
      OperandsAreStable(r, labels, constants, op, front, line);
      OperandIsStable(r, labels, constants, op, |tokens| - 1, last, line);
      OnlyTheFirstNamesALabel(labels, op, |tokens| - 1, last);
      OneMoreOperand(r, ResolveOperands(r, labels, constants, op, front, line).value,
                     ResolveOperand(r, labels, constants, op, |tokens| - 1, last, line).value);
    }
  }

  lemma PlainFront(r: Reader, labels: Labels, constants: Constants, op: U.Opcode, tokens: seq<string>)
    requires PlainTokens(r, labels, constants, op, tokens) && tokens != []
    ensures PlainTokens(r, labels, constants, op, tokens[..|tokens| - 1])
    ensures var n := |tokens| - 1; NamesConstant(labels, constants, op, n, tokens[n]) ==> Plain(r, constants[tokens[n][1..]])
  {
    hide NamedLabel, Plain;
  }

  lemma OneMoreOperand(r: Reader, front: seq<Value>, v: Value)
    ensures ToOperands(front + [v]) == ToOperands(front) + [ToOperand(v)]
    ensures LoadedOperands(r, front + [v]) == LoadedOperands(r, front) + [ToOperand(ParseOperand(r, v))]
  {
    hide ToOperand, ParseOperand;
  }

  lemma OnlyTheFirstNamesALabel(labels: Labels, op: U.Opcode, index: nat, token: string)
    ensures index > 0 ==> NamedLabel(labels, op, index, token).None?
  {
  }

  lemma NamedInBoth(items: seq<Item>, labels: Labels, places: map<string, nat>, op: U.Opcode, token: string)
    requires LabelsCollected(items, labels) && Placed(items, places)
    ensures NamedLabel(places, op, 0, token) == NamedLabel(labels, op, 0, token)
    ensures var named := NamedLabel(labels, op, 0, token);
            named.Some? ==> named.value in labels && named.value in places && places[named.value] < |items| && CodeBefore(items, places[named.value]) == labels[named.value]
  {
    forall l
      ensures l in labels <==> l in places
      ensures l in labels ==> IsLabelAt(items, places[l], l)
    {
      if l in labels {
        assert HasLabel(items, l);
        var i :| IsLabelAt(items, i, l);
      }
    }
  }

  // A step of the source and the step of the assembled instruction agree, up to the place to go on.
  ghost predicate Agree(items: seq<Item>, s: U.StepResult, v: U.StepResult) {
    s.m == v.m && match s.signal
      case Failure(t) => v.signal == Failure(t)
      case Success(None) => v.signal == Success(None)
      case Success(Some(p)) => p <= |items| && v.signal == Success(Some(CodeBefore(items, p)))
  }

  lemma StepsAgree(r: Reader, items: seq<Item>, a: Assembly, places: map<string, nat>, ctx: U.Context, m: U.Memory, pos: nat)
    requires Lawful(r) && PlainlyUsed(r, items, a.labels, a.constants) && Assembles(r, items, a) && Placed(items, places) && LabelsInside(items, a.labels)
    requires pos < |items| && items[pos].Code?
    ensures CodeBefore(items, pos) < |a.program| && a.program[CodeBefore(items, pos)].op == items[pos].op
    ensures var p := Loaded(r, a.program);
            Agree(items, SourceStep(r, items, places, a.constants, items[pos], ctx, m), U.Step(p[CodeBefore(items, pos)], ctx, m, |p|))
  {
    hide LabelsCollected, ConstantsCollected, Placed, Codes, CodeBefore, Lawful, PlainTokens, ResolveOperands, NamedLabel, U.Step, PositionOf, LabelsInside;
    CodeIsAtItsCount(items, pos);
    var item, k := items[pos], CodeBefore(items, pos);
    OperandsAreStable(r, a.labels, a.constants, item.op, item.tokens, item.line);
    if item.tokens != [] {
      NamedInBoth(items, a.labels, places, item.op, item.tokens[0]);
    }
    if item.tokens != [] && NamedLabel(a.labels, item.op, 0, item.tokens[0]).Some? {
      LabelJumpsAgree(r, items, a, places, ctx, m, pos, NamedLabel(a.labels, item.op, 0, item.tokens[0]).value);
    } else {
      var v := U.Step(Loaded(r, a.program)[k], ctx, m, |a.program|);
      if v.signal.Success? && v.signal.value.Some? {
        TargetsAreInside(Loaded(r, a.program)[k], ctx, m, |a.program|);
        CountAtPosition(items, v.signal.value.value);
      }
    }
  }

  lemma CountAtPosition(items: seq<Item>, k: nat)
    requires k < CodeBefore(items, |items|)
    ensures CodeBefore(items, PositionOf(items, k, 0)) == k
  {
    PositionHasCount(items, k, 0);
  }

  lemma TargetsAreInside(ins: U.Instruction, ctx: U.Context, m: U.Memory, n: nat)
    ensures var s := U.Step(ins, ctx, m, n).signal; s.Success? && s.value.Some? ==> s.value.value < n
  {
    hide U.StepBinary, U.StepStack, U.StepKeyed, U.StepWallet, U.StepTransfer;
    var op, operands := ins.op, ins.operands;
    if !op.Unknown? && |operands| == U.OperandCount(op) && !U.IsControl(op) {
      if U.IsWallet(op) {
        WalletsGoOn(op, operands, ctx, m);
      } else if U.IsKeyed(op) {
        KeyedGoOn(op, operands[0], ctx, m);
      } else if op == U.TRANSFER_FROM {
        TransfersGoOn(op, operands, ctx, m);
      } else {
        OthersGoOn(op, operands, ctx, m);
      }
    }
  }

  lemma WalletsGoOn(op: U.Opcode, operands: seq<U.Operand>, ctx: U.Context, m: U.Memory)
    requires U.IsWallet(op) && |operands| == 2
    ensures U.StepWallet(op, operands, ctx, m).signal.Success? ==> U.StepWallet(op, operands, ctx, m).signal == U.CONTINUE
  {
    hide U.KeyOperand;
  }

  lemma KeyedGoOn(op: U.Opcode, operand: U.Operand, ctx: U.Context, m: U.Memory)
    requires U.IsKeyed(op)
    ensures U.StepKeyed(op, operand, ctx, m).signal.Success? ==> U.StepKeyed(op, operand, ctx, m).signal == U.CONTINUE
  {
    hide U.KeyOperand, U.ReadWord;
  }

  lemma TransfersGoOn(op: U.Opcode, operands: seq<U.Operand>, ctx: U.Context, m: U.Memory)
    requires |operands| == 3
    ensures U.StepTransfer(op, operands, ctx, m).signal.Success? ==> U.StepTransfer(op, operands, ctx, m).signal == U.CONTINUE
  {
    hide U.AccountOperand, U.KeyOperand, U.MaySpend, U.Booked;
  }

  lemma OthersGoOn(op: U.Opcode, operands: seq<U.Operand>, ctx: U.Context, m: U.Memory)
    requires !op.Unknown? && |operands| == U.OperandCount(op)
    ensures U.IsBinary(op) && U.StepBinary(op, m).signal.Success? ==> U.StepBinary(op, m).signal == U.CONTINUE
    ensures U.IsStack(op) && U.StepStack(op, operands, ctx, m).signal.Success? ==> U.StepStack(op, operands, ctx, m).signal == U.CONTINUE
  {
    hide U.Pushed, U.BinaryValue, U.IntOperand;
    forall m', v
      ensures U.Pushed(m', v).signal.Success? ==> U.Pushed(m', v).signal == U.CONTINUE
    {
      PushGoesOn(m', v);
    }
  }

  lemma PushGoesOn(m: U.Memory, v: int)
    ensures U.Pushed(m, v).signal.Success? ==> U.Pushed(m, v).signal == U.CONTINUE
  {
  }

  lemma JumpOperand(r: Reader, labels: Labels, constants: Constants, item: Item, l: string)
    requires item.Code? && item.tokens != [] && l in labels && AssembleCode(r, labels, constants, item).Success?
    requires NamedLabel(labels, item.op, 0, item.tokens[0]) == Some(l)
    ensures IsJump(item.op) && AssembleCode(r, labels, constants, item).value == Assembled(item.op, [Number(labels[l])])
  {
    ResolvedOneByOne(r, labels, constants, item.op, item.tokens, item.line);
    var t := item.tokens;
    assert |t| == 1 && t[..0] == [];
  }

  lemma {:induction false} ResolvedOneByOne(r: Reader, labels: Labels, constants: Constants, op: U.Opcode, tokens: seq<string>, line: nat)
    ensures var values := ResolveOperands(r, labels, constants, op, tokens, line); values.Success? ==> |values.value| == |tokens|
  {
    hide ResolveOperand;
    if tokens != [] {
      ResolvedOneByOne(r, labels, constants, op, tokens[..|tokens| - 1], line);
    }
  }

  lemma JumpStep(op: U.Opcode, target: nat, ctx: U.Context, m: U.Memory, n: nat)
    requires IsJump(op) && target < n
    ensures U.Step(U.Instruction(op, [U.Word(target)]), ctx, m, n) ==
              if op.JUMP? then U.StepResult(m, Success(Some(target)))
              else if m.stack == [] then U.Raise(m, U.StackUnderflow)
              else U.StepResult(U.Popped(m), Success(if U.Top(m) != 0 then Some(target) else None))
  {
    hide U.StepBinary, U.StepStack, U.StepKeyed, U.StepWallet, U.StepTransfer;
  }

  lemma LabelJumpsAgree(r: Reader, items: seq<Item>, a: Assembly, places: map<string, nat>, ctx: U.Context, m: U.Memory, pos: nat, l: string)
    requires Assembles(r, items, a) && LabelsInside(items, a.labels) && pos < |items| && items[pos].Code? && items[pos].tokens != []
    requires NamedLabel(a.labels, items[pos].op, 0, items[pos].tokens[0]) == Some(l) == NamedLabel(places, items[pos].op, 0, items[pos].tokens[0])
    requires l in a.labels && l in places && places[l] <= |items| && CodeBefore(items, places[l]) == a.labels[l]
    requires CodeBefore(items, pos) < |Codes(items)| && Codes(items)[CodeBefore(items, pos)] == items[pos]
    ensures var p := Loaded(r, a.program);
            Agree(items, SourceStep(r, items, places, a.constants, items[pos], ctx, m), U.Step(p[CodeBefore(items, pos)], ctx, m, |p|))
  {
    hide LabelsCollected, ConstantsCollected, Codes, CodeBefore, ResolveOperands, NamedLabel, U.Step, PositionOf, AssembleCode;
    JumpOperand(r, a.labels, a.constants, items[pos], l);
    JumpStep(items[pos].op, a.labels[l], ctx, m, |a.program|);
    var ins := Loaded(r, a.program)[CodeBefore(items, pos)];
    assert ins.operands == [U.Word(a.labels[l])];
  }

  // From every place of the source, with any memory and any gas, the source and the assembled
  // program run in lockstep: they end in the same way with the same memory and gas, and the
  // program counter is the number of instructions before the place the source has reached.
  lemma {:induction false} RunsInLockstep(r: Reader, items: seq<Item>, a: Assembly, places: map<string, nat>, ctx: U.Context, m: U.Memory, pos: nat, gas: nat)
    requires Lawful(r) && PlainlyUsed(r, items, a.labels, a.constants) && Assembles(r, items, a) && Placed(items, places) && LabelsInside(items, a.labels)
    requires pos <= |items|
    ensures var f := SourceRun(r, items, places, a.constants, ctx, m, pos, gas);
            f.pc <= |items| && U.Run(Loaded(r, a.program), ctx, m, CodeBefore(items, pos), gas) == f.(pc := CodeBefore(items, f.pc))
    decreases gas, |items| - pos
  {
    hide Assembles, Placed, Lawful, PlainlyUsed, LabelsInside, SourceStep, U.Step, Loaded, CodeBefore;
    ProgramLength(r, items, a);
    if pos < |items| {
      CountStep(items, pos);
      if !items[pos].Code? {
        RunsInLockstep(r, items, a, places, ctx, m, pos + 1, gas);
      } else {
        StepsAgree(r, items, a, places, ctx, m, pos);
        LoadedOpcode(r, a, CodeBefore(items, pos));
        var cost := U.GasCost(items[pos].op);
        if cost.Some? && cost.value <= gas {
          var s := SourceStep(r, items, places, a.constants, items[pos], ctx, m);
          if s.signal.Success? && !items[pos].op.HALT? {
            SourceStepCosts(r, items, places, a.constants, items[pos], ctx, m);
            RunsInLockstep(r, items, a, places, ctx, s.m, if s.signal.value.Some? then s.signal.value.value else pos + 1, gas - cost.value);
          }
        }
      }
    }
  }

  lemma CountStep(items: seq<Item>, pos: nat)
    requires pos < |items|
    ensures CodeBefore(items, pos + 1) == CodeBefore(items, pos) + (if items[pos].Code? then 1 else 0)
  {
  }

  lemma ProgramLength(r: Reader, items: seq<Item>, a: Assembly)
    requires Assembles(r, items, a)
    ensures |Loaded(r, a.program)| == |a.program| == CodeBefore(items, |items|)
  {
  }

  lemma LoadedOpcode(r: Reader, a: Assembly, k: nat)
    requires k < |a.program|
    ensures Loaded(r, a.program)[k].op == a.program[k].op
  {
  }

  // ---- Where lockstep ends ----------------------------------------------------------------

  lemma {:induction false} CountsGrow(items: seq<Item>, a: nat, b: nat)
    requires a <= b <= |items|
    ensures CodeBefore(items, a) <= CodeBefore(items, b)
    decreases b
  {
    if a < b {
      CountsGrow(items, a, b - 1);
    }
  }

  lemma {:induction false} NothingLeftToRun(r: Reader, items: seq<Item>, places: map<string, nat>, constants: Constants, ctx: U.Context, m: U.Memory, pos: nat, gas: nat)
    requires pos <= |items| && CodeBefore(items, pos) == CodeBefore(items, |items|)
    ensures SourceRun(r, items, places, constants, ctx, m, pos, gas) == U.Final(U.Completed, m, |items|, gas)
    decreases |items| - pos
  {
    hide SourceStep;
    if pos < |items| {
      CountsGrow(items, pos + 1, |items|);
      NothingLeftToRun(r, items, places, constants, ctx, m, pos + 1, gas);
    }
  }

  // The condition on labels is needed: a taken jump to a label with no instruction after it
  // completes the source and is out of bounds in the machine, whatever the rest of the source is.
  lemma JumpPastTheEnd(r: Reader, items: seq<Item>, a: Assembly, places: map<string, nat>, ctx: U.Context, m: U.Memory, pos: nat, l: string, gas: nat)
    requires Assembles(r, items, a) && Placed(items, places) && pos < |items| && items[pos].Code? && items[pos].tokens != []
    requires NamedLabel(a.labels, items[pos].op, 0, items[pos].tokens[0]) == Some(l) && a.labels[l] >= CodeBefore(items, |items|)
    requires m.stack != [] && U.Top(m) != 0 && gas >= 5
    ensures SourceRun(r, items, places, a.constants, ctx, m, pos, gas).ending == U.Completed
    ensures U.Run(Loaded(r, a.program), ctx, m, CodeBefore(items, pos), gas).ending == U.Trapping(U.Error(U.JumpOutOfBounds(a.labels[l])))
  {
    hide LabelsCollected, ConstantsCollected, Placed, Codes, CodeBefore, ResolveOperands, NamedLabel, U.Step, PositionOf, AssembleCode;
    CodeIsAtItsCount(items, pos);
    NamedInBoth(items, a.labels, places, items[pos].op, items[pos].tokens[0]);
    JumpOperand(r, a.labels, a.constants, items[pos], l);
    CountsGrow(items, places[l], |items|);
    var s := SourceStep(r, items, places, a.constants, items[pos], ctx, m);
    NothingLeftToRun(r, items, places, a.constants, ctx, s.m, places[l], gas - U.GasCost(items[pos].op).value);
    var ins := Loaded(r, a.program)[CodeBefore(items, pos)];
    assert ins == U.Instruction(items[pos].op, [U.Word(a.labels[l])]);
    JumpOutside(items[pos].op, a.labels[l], ctx, m, |a.program|);
  }

  lemma JumpOutside(op: U.Opcode, target: nat, ctx: U.Context, m: U.Memory, n: nat)
    requires IsJump(op) && target >= n
    ensures U.Step(U.Instruction(op, [U.Word(target)]), ctx, m, n) == U.Raise(m, U.JumpOutOfBounds(target))
  {
    hide U.StepBinary, U.StepStack, U.StepKeyed, U.StepWallet, U.StepTransfer;
  }

  // A label with no instruction after it assembles, but jumping to it is out of bounds.
  const TRAILING: seq<Item> := [Code(U.JUMP, ["end"], 1), Label("end", 2)]

  lemma TrailingLabelIsOutOfBounds(r: Reader, ctx: U.Context, m: U.Memory, gas: nat)
    requires gas >= 3
    ensures var a := Assembly([Assembled(U.JUMP, [Number(1)])], map["end" := 1], map[], [1]);
            && Assembles(r, TRAILING, a) && Placed(TRAILING, map["end" := 1])
            && SourceRun(r, TRAILING, map["end" := 1], map[], ctx, m, 0, gas).ending == U.Completed
            && U.Run(Loaded(r, a.program), ctx, m, 0, gas).ending == U.Trapping(U.Error(U.JumpOutOfBounds(1)))
  {
    TrailingAssembles(r);
    var a := Assembly([Assembled(U.JUMP, [Number(1)])], map["end" := 1], map[], [1]);
    assert Loaded(r, a.program)[0].operands == [U.Word(1)];
    assert SourceStep(r, TRAILING, map["end" := 1], map[], TRAILING[0], ctx, m).signal == Success(Some(1));
    assert SourceRun(r, TRAILING, map["end" := 1], map[], ctx, m, 1, gas - 3).ending == U.Completed;
  }

  lemma OneToken(r: Reader, labels: Labels, constants: Constants, op: U.Opcode, token: string, line: nat)
    ensures ResolveOperands(r, labels, constants, op, [token], line) == match ResolveOperand(r, labels, constants, op, 0, token, line)
              case Failure(e) => Failure(e)
              case Success(v) => Success([v])
  {
    hide ResolveOperand;
    var tokens := [token];
    assert tokens[..|tokens| - 1] == [] && tokens[|tokens| - 1] == token;
    assert ResolveOperands(r, labels, constants, op, [], line) == Success([]);
    var only := ResolveOperand(r, labels, constants, op, 0, token, line);
    if only.Success? {
      assert [] + [only.value] == [only.value];
    }
  }

  lemma TrailingAssembles(r: Reader)
    ensures var a := Assembly([Assembled(U.JUMP, [Number(1)])], map["end" := 1], map[], [1]);
            Assembles(r, TRAILING, a) && Placed(TRAILING, map["end" := 1])
  {
    hide ResolveOperands;
    var a := Assembly([Assembled(U.JUMP, [Number(1)])], map["end" := 1], map[], [1]);
    TrailingIsCollected();
    TrailingResolves(r);
  }

  lemma TrailingIsCollected()
    ensures Codes(TRAILING) == [TRAILING[0]] && LabelsCollected(TRAILING, map["end" := 1]) && ConstantsCollected(TRAILING, map[])
  {
    assert TRAILING[..1] == [TRAILING[0]] && [TRAILING[0]][..0] == [];
    assert IsLabelAt(TRAILING, 1, "end");
    assert CodeBefore(TRAILING, 1) == 1;
    assert HasLabel(TRAILING, "end");
  }

  lemma TrailingResolves(r: Reader)
    ensures ResolveOperands(r, map["end" := 1], map[], U.JUMP, ["end"], 1) == Success([Number(1)])
  {
    hide ResolveOperands;
    OneToken(r, map["end" := 1], map[], U.JUMP, "end", 1);
  }

  // ---- Text that reads as a number --------------------------------------------------------

  predicate TakesKeys(op: U.Opcode) {
    U.IsKeyed(op) || U.IsWallet(op) || op.TRANSFER_FROM?
  }

  // An instruction with a word among its operands where keys belong traps.
  lemma WordIsNoKey(ins: U.Instruction, k: nat, n: int, ctx: U.Context, m: U.Memory, length: nat)
    requires TakesKeys(ins.op) && |ins.operands| == U.OperandCount(ins.op) && k < |ins.operands| && ins.operands[k] == U.Word(n)
    ensures U.Step(ins, ctx, m, length).signal ==
              Failure(U.Error(if (ins.op.STORE? || ins.op.MEM_STORE?) && m.stack == [] then U.StackUnderflow else U.KeyOperandRequired(ins.op)))
  {
    hide U.StepBinary, U.StepStack, U.StepControl, U.Moved, U.Pushed, U.ReadWord;
  }

  lemma {:induction false} OperandOf(r: Reader, labels: Labels, constants: Constants, op: U.Opcode, tokens: seq<string>, line: nat, k: nat)
    requires ResolveOperands(r, labels, constants, op, tokens, line).Success? && k < |tokens|
    ensures var values := ResolveOperands(r, labels, constants, op, tokens, line).value;
            |values| == |tokens| && ResolveOperand(r, labels, constants, op, k, tokens[k], line) == Success(values[k])
    decreases |tokens|
  {
    hide ResolveOperand;
    ResolvedOneByOne(r, labels, constants, op, tokens, line);
    if k < |tokens| - 1 {
      OperandOf(r, labels, constants, op, tokens[..|tokens| - 1], line, k);
    }
  }

  // The condition on constants is needed: in every assembled source, an instruction that names a
  // text constant which reads as a number has that text as a key operand in the source, but a word
  // in the machine, where it traps.
  lemma NumericTextIsMisread(r: Reader, items: seq<Item>, a: Assembly, ctx: U.Context, m: U.Memory, pos: nat, k: nat, s: string, n: int, gas: nat)
    requires Assembles(r, items, a) && pos < |items| && items[pos].Code? && k < |items[pos].tokens|
    requires NamesConstant(a.labels, a.constants, items[pos].op, k, items[pos].tokens[k])
    requires a.constants[items[pos].tokens[k][1..]] == Text(s) && Reading(r, s) == Some(n)
    ensures TakesKeys(items[pos].op)
    ensures var item := items[pos];
            var values := ResolveOperands(r, map[], a.constants, item.op, item.tokens, item.line);
            values.Success? && |values.value| == |item.tokens| && ToOperands(values.value)[k] == U.Key(s)
    ensures var p, at, op := Loaded(r, a.program), CodeBefore(items, pos), items[pos].op;
            && at < |p| && p[at].op == op && k < |p[at].operands| && p[at].operands[k] == U.Word(n)
            && (U.GasCost(op).Some? && gas >= U.GasCost(op).value ==>
                  U.Run(p, ctx, m, at, gas).ending ==
                    U.Trapping(U.Error(if (op.STORE? || op.MEM_STORE?) && m.stack == [] then U.StackUnderflow else U.KeyOperandRequired(op))))
  {
    hide LabelsCollected, ConstantsCollected, Codes, ResolveOperands, Reading, U.Step;
    CodeIsAtItsCount(items, pos);
    var item, at := items[pos], CodeBefore(items, pos);
    assert AssembleCode(r, a.labels, a.constants, item) == Success(a.program[at]);
    OperandOf(r, a.labels, a.constants, item.op, item.tokens, item.line, k);
    var operands := a.program[at].operands;
    assert operands[k] == Text(s);
    TextMeansKeys(item.op, operands, item.line, k);
    LabelsDoNotMatter(r, a.labels, a.constants, item.op, item.tokens, item.line);
    ReadAsNumber(r, s, n);
    WordIsNoKey(Loaded(r, a.program)[at], k, n, ctx, m, |a.program|);
  }

  lemma ReadAsNumber(r: Reader, s: string, n: int)
    requires Reading(r, s) == Some(n)
    ensures ParseOperand(r, Text(s)) == Number(n)
  {
  }

  lemma TextMeansKeys(op: U.Opcode, operands: seq<Value>, line: nat, k: nat)
    requires ValidationError(op, operands, line).None? && k < |operands| && operands[k].Text?
    ensures TakesKeys(op) && |operands| == U.OperandCount(op)
  {
  }

  lemma {:induction false} LabelsDoNotMatter(r: Reader, labels: Labels, constants: Constants, op: U.Opcode, tokens: seq<string>, line: nat)
    requires !IsJump(op)
    ensures ResolveOperands(r, map[], constants, op, tokens, line) == ResolveOperands(r, labels, constants, op, tokens, line)
  {
    if tokens != [] {
      LabelsDoNotMatter(r, labels, constants, op, tokens[..|tokens| - 1], line);
    }
  }
}
