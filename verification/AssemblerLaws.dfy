/** What an assembled program says, token by token, in terms of the source alone: and which sources
    assemble at all. */
module AssemblerLaws {
  import opened Base
  import opened Assembler
  import U = Uvm

  // ---- Tokens -----------------------------------------------------------------------------

  // The value stands for the place of the label: the number of instructions before it.
  ghost predicate StandsFor(items: seq<Item>, name: string, v: Value) {
    exists i :: IsLabelAt(items, i, name) && 0 <= i <= |items| && v == Number(CodeBefore(items, i))
  }

  ghost predicate DenotesConstant(items: seq<Item>, name: string, v: Value) {
    exists i :: IsConstantAt(items, i, name)
                && v == (match items[i].value case Truth(b) => Number(if b then 1 else 0) case other => other)
  }

  // Text between blanks: a number in base sixteen when it starts with 0x, with or without a sign,
  // otherwise in base ten, and itself when it is no number.
  ghost predicate Spells(r: Reader, token: string, v: Value) {
    var s := r.strip(token);
    var hex := (|s| >= 2 && s[0] == '0' && s[1] in {'x', 'X'}) || (|s| >= 3 && s[0] == '-' && s[1] == '0' && s[2] in {'x', 'X'});
    var n := if hex then r.readHex(s) else r.readInt(s);
    v == if n.Some? then Number(n.value) else Text(s)
  }

  // What a token of an instruction means: where a jump goes, a constant by its name, or what it spells.
  ghost predicate Means(r: Reader, items: seq<Item>, op: U.Opcode, index: nat, token: string, v: Value) {
    var jumps, at := (op.JUMP? || op.JUMPI?) && index == 0, |token| >= 1 && token[0] == '@';
    if jumps && HasLabel(items, token) then StandsFor(items, token, v)
    else if jumps && at && HasLabel(items, token[1..]) then StandsFor(items, token[1..], v)
    else if at then DenotesConstant(items, token[1..], v)
    else Spells(r, token, v)
  }

  lemma LabelsStand(items: seq<Item>, labels: Labels, name: string, v: Value)
    requires LabelsCollected(items, labels)
    ensures HasLabel(items, name) <==> name in labels
    ensures name in labels ==> (StandsFor(items, name, v) <==> v == Number(labels[name]))
  {
    hide CodeBefore;
    if HasLabel(items, name) {
      var i :| IsLabelAt(items, i, name);
      assert name in labels && labels[name] == CodeBefore(items, i);
    }
    if StandsFor(items, name, v) {
      var i :| IsLabelAt(items, i, name) && 0 <= i <= |items| && v == Number(CodeBefore(items, i));
      assert name in labels && labels[name] == CodeBefore(items, i);
    }
  }

  lemma ConstantsStand(items: seq<Item>, constants: Constants, name: string, v: Value)
    requires ConstantsCollected(items, constants)
    ensures DenotesConstant(items, name, v) <==> name in constants && v == Assembler.Normalize(constants[name])
  {
    if name in constants {
      assert HasConstant(items, name);
      var i :| IsConstantAt(items, i, name);
      assert constants[name] == items[i].value;
    }
    if DenotesConstant(items, name, v) {
      var i :| IsConstantAt(items, i, name)
               && v == (match items[i].value case Truth(b) => Number(if b then 1 else 0) case other => other);
      assert constants[name] == items[i].value;
    }
  }

  lemma ScalarsSpell(r: Reader, token: string, v: Value)
    ensures Spells(r, token, v) <==> v == ParseScalarToken(r, token)
  {
  }

  // A token that names a label where a jump goes.
  lemma JumpsAsMeant(r: Reader, items: seq<Item>, labels: Labels, constants: Constants, op: U.Opcode, index: nat, token: string, line: nat, v: Value, l: string)
    requires LabelsCollected(items, labels) && NamedLabel(labels, op, index, token) == Some(l)
    ensures ResolveOperand(r, labels, constants, op, index, token, line) == Success(v) <==> Means(r, items, op, index, token, v)
  {
    hide LabelsCollected, StandsFor, DenotesConstant, Spells, HasLabel, ParseScalarToken;
    LabelsStand(items, labels, l, v);
    if l != token {
      LabelsStand(items, labels, token, v);
    }
  }

  lemma NameReadsAsMeant(r: Reader, items: seq<Item>, labels: Labels, constants: Constants, op: U.Opcode, index: nat, token: string, line: nat, v: Value)
    requires LabelsCollected(items, labels) && ConstantsCollected(items, constants) && NamedLabel(labels, op, index, token).None?
    requires |token| >= 1 && token[0] == '@'
    ensures ResolveOperand(r, labels, constants, op, index, token, line) == Success(v) <==> Means(r, items, op, index, token, v)
  {
    hide LabelsCollected, ConstantsCollected, StandsFor, DenotesConstant, Spells, HasLabel, ParseScalarToken, Assembler.Normalize;
    LabelsStand(items, labels, token, v);
    LabelsStand(items, labels, token[1..], v);
    ConstantsStand(items, constants, token[1..], v);
  }

  lemma PlainReadsAsMeant(r: Reader, items: seq<Item>, labels: Labels, constants: Constants, op: U.Opcode, index: nat, token: string, line: nat, v: Value)
    requires LabelsCollected(items, labels) && NamedLabel(labels, op, index, token).None?
    requires !(|token| >= 1 && token[0] == '@')
    ensures ResolveOperand(r, labels, constants, op, index, token, line) == Success(v) <==> Means(r, items, op, index, token, v)
  {
    hide LabelsCollected, StandsFor, DenotesConstant, Spells, HasLabel, ParseScalarToken;
    LabelsStand(items, labels, token, v);
    ScalarsSpell(r, token, v);
  }

  lemma ResolvesAsMeant(r: Reader, items: seq<Item>, labels: Labels, constants: Constants, op: U.Opcode, index: nat, token: string, line: nat, v: Value)
    requires LabelsCollected(items, labels) && ConstantsCollected(items, constants)
    ensures ResolveOperand(r, labels, constants, op, index, token, line) == Success(v) <==> Means(r, items, op, index, token, v)
  {
    hide *;
    if NamedLabel(labels, op, index, token).Some? {
      JumpsAsMeant(r, items, labels, constants, op, index, token, line, v, NamedLabel(labels, op, index, token).value);
    } else if |token| >= 1 && token[0] == '@' {
      NameReadsAsMeant(r, items, labels, constants, op, index, token, line, v);
    } else {
      PlainReadsAsMeant(r, items, labels, constants, op, index, token, line, v);
    }
  }

  // ---- Instructions -----------------------------------------------------------------------

  // How many operands an instruction takes.
  predicate Takes(op: U.Opcode, n: nat) {
    n == if op.TRANSFER_FROM? then 3
         else if op.READ_COMMIT? || op.READ_REVEAL? || op.HAS_REVEAL? || op.HAS_AUTH? || op.REQUIRE_AUTH? then 2
         else if op.PUSH? || op.JUMP? || op.JUMPI? || op.LOAD? || op.STORE? || op.MEM_LOAD? || op.MEM_STORE?
                 || op.READ_METADATA? || op.READ_INPUT? then 1
         else 0
  }

  predicate RightKind(op: U.Opcode, v: Value) {
    if op.PUSH? || op.JUMP? || op.JUMPI? then v.Number? else v.Text?
  }

  // The operands are what the tokens mean, as many and of the kind the instruction takes.
  ghost predicate OperandsAsWritten(r: Reader, items: seq<Item>, item: Item, operands: seq<Value>)
    requires item.Code?
  {
    && |operands| == |item.tokens| && Takes(item.op, |operands|)
    && forall j :: 0 <= j < |operands| ==> Means(r, items, item.op, j, item.tokens[j], operands[j]) && RightKind(item.op, operands[j])
  }

  lemma ArityIsTaken(op: U.Opcode, n: nat)
    ensures Takes(op, n) <==> n == U.OperandCount(op)
  {
  }

  lemma {:induction false} AllResolve(r: Reader, labels: Labels, constants: Constants, op: U.Opcode, tokens: seq<string>, line: nat, values: seq<Value>)
    requires |values| == |tokens|
    requires forall j :: 0 <= j < |tokens| ==> ResolveOperand(r, labels, constants, op, j, tokens[j], line) == Success(values[j])
    ensures ResolveOperands(r, labels, constants, op, tokens, line) == Success(values)
  {
    hide ResolveOperand;
    if tokens != [] {
      AllResolve(r, labels, constants, op, tokens[..|tokens| - 1], line, values[..|values| - 1]);
      assert values == values[..|values| - 1] + [values[|values| - 1]];
    }
  }

  lemma ValidByKind(op: U.Opcode, operands: seq<Value>, line: nat)
    ensures ValidationError(op, operands, line).None? <==>
              Takes(op, |operands|) && forall j :: 0 <= j < |operands| ==> RightKind(op, operands[j])
  {
    ArityIsTaken(op, |operands|);
    hide U.OperandCount, Takes;
  }

  // An instruction assembles exactly when its tokens mean operands it can take, and to those.
  lemma CodeAsWritten(r: Reader, items: seq<Item>, labels: Labels, constants: Constants, item: Item, operands: seq<Value>)
    requires LabelsCollected(items, labels) && ConstantsCollected(items, constants) && item.Code?
    ensures AssembleCode(r, labels, constants, item) == Success(Assembled(item.op, operands)) <==> OperandsAsWritten(r, items, item, operands)
  {
    hide LabelsCollected, ConstantsCollected, Means, ResolveOperand, ResolveOperands, Takes, ValidationError, RightKind;
    ValidByKind(item.op, operands, item.line);
    forall j, v | 0 <= j < |item.tokens|
      ensures ResolveOperand(r, labels, constants, item.op, j, item.tokens[j], item.line) == Success(v) <==> Means(r, items, item.op, j, item.tokens[j], v)
    {
      ResolvesAsMeant(r, items, labels, constants, item.op, j, item.tokens[j], item.line, v);
    }
    var values := ResolveOperands(r, labels, constants, item.op, item.tokens, item.line);
    if values.Success? {
      ResolvedOneByOne(r, labels, constants, item.op, item.tokens, item.line);
      forall j | 0 <= j < |item.tokens|
        ensures ResolveOperand(r, labels, constants, item.op, j, item.tokens[j], item.line) == Success(values.value[j])
      {
        OperandOf(r, labels, constants, item.op, item.tokens, item.line, j);
      }
    }
    if OperandsAsWritten(r, items, item, operands) {
      AllResolve(r, labels, constants, item.op, item.tokens, item.line, operands);
    }
  }

  // ---- Sources ----------------------------------------------------------------------------

  ghost predicate NamedOnce(items: seq<Item>) {
    && (forall i, j, l :: IsLabelAt(items, i, l) && IsLabelAt(items, j, l) ==> i == j)
    && (forall i, j, c :: IsConstantAt(items, i, c) && IsConstantAt(items, j, c) ==> i == j)
  }

  // No name is defined twice, every opcode is known, and every instruction has operands.
  ghost predicate WellWritten(r: Reader, items: seq<Item>) {
    && NamedOnce(items) && KnownOpcodes(items)
    && forall pos :: 0 <= pos < |items| && items[pos].Code? ==> exists operands :: OperandsAsWritten(r, items, items[pos], operands)
  }

  // The program is the instructions of the source in their order, each with what its tokens mean.
  lemma ProgramAsWritten(r: Reader, items: seq<Item>, a: Assembly, pos: nat)
    requires Assembles(r, items, a) && pos < |items| && items[pos].Code?
    ensures |a.program| == CodeBefore(items, |items|) && CodeBefore(items, pos) < |a.program|
    ensures a.program[CodeBefore(items, pos)].op == items[pos].op
    ensures OperandsAsWritten(r, items, items[pos], a.program[CodeBefore(items, pos)].operands)
  {
    hide LabelsCollected, ConstantsCollected, OperandsAsWritten, ResolveOperands, CodeBefore;
    CodeIsAtItsCount(items, pos);
    var code := a.program[CodeBefore(items, pos)];
    CodeAsWritten(r, items, a.labels, a.constants, items[pos], code.operands);
  }

  // A source that assembles is well written.
  lemma AssembledIsWellWritten(r: Reader, items: seq<Item>, a: Assembly)
    requires Assembles(r, items, a)
    ensures WellWritten(r, items)
  {
    hide OperandsAsWritten, AssembleCode;
    forall pos | 0 <= pos < |items| && items[pos].Code?
      ensures exists operands :: OperandsAsWritten(r, items, items[pos], operands)
    {
      ProgramAsWritten(r, items, a, pos);
      assert OperandsAsWritten(r, items, items[pos], a.program[CodeBefore(items, pos)].operands);
    }
  }

  // The two ways in which assembling fails are faults of the source.
  lemma FaultyIsNotWellWritten(r: Reader, items: seq<Item>, e: AssemblyError)
    requires FirstPassFault(items, e)
    ensures !WellWritten(r, items)
  {
    hide OperandsAsWritten;
  }

  lemma {:induction false} CodeIsSomewhere(items: seq<Item>, k: nat) returns (pos: nat)
    requires k < |Codes(items)|
    ensures pos < |items| && items[pos].Code? && Codes(items)[k] == items[pos]
    decreases |items|
  {
    var front := items[..|items| - 1];
    if k < |Codes(front)| {
      pos := CodeIsSomewhere(front, k);
    } else {
      pos := |items| - 1;
    }
  }

  lemma UnresolvedIsNotWellWritten(r: Reader, items: seq<Item>, labels: Labels, constants: Constants, k: nat)
    requires LabelsCollected(items, labels) && ConstantsCollected(items, constants)
    requires k < |Codes(items)| && AssembleCode(r, labels, constants, Codes(items)[k]).Failure?
    ensures !WellWritten(r, items)
  {
    hide LabelsCollected, ConstantsCollected, OperandsAsWritten, AssembleCode, Codes, NamedOnce;
    var pos := CodeIsSomewhere(items, k);
    if WellWritten(r, items) {
      var operands :| OperandsAsWritten(r, items, items[pos], operands);
      CodeAsWritten(r, items, labels, constants, items[pos], operands);
    }
  }

  // Assembling succeeds exactly on the sources that are well written.
  lemma AssemblesExactly(r: Reader, items: seq<Item>, result: Result<Assembly, AssemblyError>)
    requires Outcome(r, items, result)
    ensures result.Success? <==> WellWritten(r, items)
  {
    hide LabelsCollected, ConstantsCollected, AssembleCode, Codes, WellWritten, FirstPassFault, Assembles;
    if result.Success? {
      AssembledIsWellWritten(r, items, result.value);
    } else if FirstPassFault(items, result.error) {
      FaultyIsNotWellWritten(r, items, result.error);
    } else {
      var labels, constants, k :|
        LabelsCollected(items, labels) && ConstantsCollected(items, constants) && 0 <= k < |Codes(items)|
        && AssembleCode(r, labels, constants, Codes(items)[k]) == Failure(result.error);
      UnresolvedIsNotWellWritten(r, items, labels, constants, k);
    }
  }
}
