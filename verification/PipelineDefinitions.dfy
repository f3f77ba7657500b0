/**
 * A pipeline version's document, already parsed (src/services/pipeline/definition.ts), and what its
 * conditions mean (src/services/pipeline/condition-sources.ts, src/services/application/form/conditions.ts).
 */
module PipelineDefinitions {
  import opened Common

  datatype Value = Text(text: string) | Number(number: int) | Truth(truth: bool) | Choices(choices: seq<string>) | Null

  type Values = map<Key, Value>

  datatype InputType =
    | ShortText | LongText | Date | Integer | Money | Boolean | SingleChoice | MultiChoice | Statement

  datatype Source = FromAnswer | FromFlag | FromRecorded | FromInput

  datatype Operator =
    | Equals | NotEquals | GreaterThan | GreaterOrEqual | LessThan | LessOrEqual | IsPresent | IsAbsent

  /** Conditions sharing a group must all hold; any group holding is enough. */
  datatype Condition = Condition(
    group: nat, source: Source, key: Key, operator: Operator, value: Option<string>, answerType: Option<InputType>)

  datatype Default = DefaultAnswer(key: Key) | DefaultRecorded(key: Key)

  datatype RelativeBound = NotFuture | NotPast

  /** What an answered input must keep to; lengths bound text and the number of choices. */
  datatype Bounds = Bounds(
    minLength: Option<nat>, maxLength: Option<nat>, minValue: Option<int>, maxValue: Option<int>,
    minDate: Option<string>, maxDate: Option<string>, relative: Option<RelativeBound>)

  const UNBOUNDED := Bounds(None, None, None, None, None, None, None)

  datatype Input = Input(
    key: Key, inputType: InputType, required: bool, bounds: Bounds, options: seq<Key>,
    defaultFrom: Option<Default>, visibleWhen: seq<Condition>)

  datatype EffectKind =
    | AddStatus(flag: Key)
    | RemoveStatus(flag: Key)
    | SetRecordedValue(input: Key, target: Key, atMostAnswer: Option<Key>, atMostCycleCeiling: bool)
    | RequestRevision(flag: Key)
    | NotifyApplicant(message: string, email: bool)
    | AddInternalNote(input: Key)
    | MoveToStage(target: Key)
    | MoveByChoice(input: Key, routes: map<Key, Key>)
    | ReturnToPrevious
    | CompletePipeline(flag: Key)
    | CloseApplication(flag: Key)

  datatype Effect = Effect(kind: EffectKind, when: seq<Condition>)

  datatype Action = Action(key: Key, inputs: seq<Input>, availableWhen: seq<Condition>, effects: seq<Effect>)

  datatype Stage = Stage(key: Key, presenceFlags: seq<Key>, actions: seq<Action>)

  /** `outcome` flags record a decision; `editable` ones hand the file to the applicant for a revision. */
  datatype StatusFlag = StatusFlag(key: Key, outcome: bool, terminal: bool, editable: bool)

  datatype RecordedValue = RecordedValue(key: Key, valueType: InputType)

  datatype Definition = Definition(
    initialStageKey: Key, onSubmit: seq<Key>, statusFlags: seq<StatusFlag>,
    recordedValues: seq<RecordedValue>, stages: seq<Stage>)

  /** A file's state, as the engine reads it. */
  datatype FileState = FileState(
    stageKey: Option<Key>, flags: set<Key>, recorded: Values, trail: seq<Key>, answers: Values)

  /**
   * What belongs to the host language: trimming, cleaning typed text, how two ordered values compare,
   * and how long a set of values is once encoded.
   */
  datatype Host = Host(
    trim: string -> string, clean: (InputType, string) -> string,
    ordered: (Operator, Value, string, InputType) -> bool, encodedBytes: Values -> nat)

  // ---- Looking things up: the first declared under a key ----

  function FindFlag(flags: seq<StatusFlag>, key: Key): Option<StatusFlag> {
    if flags == [] then None else if flags[0].key == key then Some(flags[0]) else FindFlag(flags[1..], key)
  }

  function FindStage(stages: seq<Stage>, key: Key): Option<Stage> {
    if stages == [] then None else if stages[0].key == key then Some(stages[0]) else FindStage(stages[1..], key)
  }

  function FindInput(inputs: seq<Input>, key: Key): Option<Input> {
    if inputs == [] then None else if inputs[0].key == key then Some(inputs[0]) else FindInput(inputs[1..], key)
  }

  function FindRecorded(values: seq<RecordedValue>, key: Key): Option<RecordedValue> {
    if values == [] then None else if values[0].key == key then Some(values[0]) else FindRecorded(values[1..], key)
  }

  function FlagOf(d: Definition, key: Key): Option<StatusFlag> { FindFlag(d.statusFlags, key) }

  function StageOf(d: Definition, key: Option<Key>): Option<Stage> {
    if key.None? then None else FindStage(d.stages, key.value)
  }

  function InputKeys(inputs: seq<Input>): seq<Key> { seq(|inputs|, i requires 0 <= i < |inputs| => inputs[i].key) }

  function FlagKeys(flags: seq<StatusFlag>): seq<Key> { seq(|flags|, i requires 0 <= i < |flags| => flags[i].key) }

  function StageKeys(stages: seq<Stage>): seq<Key> { seq(|stages|, i requires 0 <= i < |stages| => stages[i].key) }

  lemma {:induction false} FoundFlag(flags: seq<StatusFlag>, key: Key)
    ensures FindFlag(flags, key).Some? ==> FindFlag(flags, key).value in flags && FindFlag(flags, key).value.key == key
    ensures FindFlag(flags, key).None? ==> forall f :: f in flags ==> f.key != key
  {
    if flags != [] && flags[0].key != key {
      FoundFlag(flags[1..], key);
      assert flags == [flags[0]] + flags[1..];
    }
  }

  lemma {:induction false} FoundStage(stages: seq<Stage>, key: Key)
    ensures FindStage(stages, key).Some? ==> FindStage(stages, key).value in stages && FindStage(stages, key).value.key == key
    ensures FindStage(stages, key).None? ==> forall s :: s in stages ==> s.key != key
  {
    if stages != [] && stages[0].key != key {
      FoundStage(stages[1..], key);
      assert stages == [stages[0]] + stages[1..];
    }
  }

  lemma {:induction false} FoundInput(inputs: seq<Input>, key: Key)
    ensures FindInput(inputs, key).Some? ==> FindInput(inputs, key).value in inputs && FindInput(inputs, key).value.key == key
    ensures FindInput(inputs, key).None? ==> forall i :: i in inputs ==> i.key != key
  {
    if inputs != [] && inputs[0].key != key {
      FoundInput(inputs[1..], key);
      assert inputs == [inputs[0]] + inputs[1..];
    }
  }

  lemma {:induction false} FindsEachInput(inputs: seq<Input>, i: Input)
    requires Distinct(InputKeys(inputs)) && i in inputs
    ensures FindInput(inputs, i.key) == Some(i)
  {
    if inputs[0] != i {
      var k :| 0 <= k < |inputs| && inputs[k] == i;
      assert InputKeys(inputs)[0] != InputKeys(inputs)[k];
      assert inputs[1..][k - 1] == i;
      assert InputKeys(inputs[1..]) == InputKeys(inputs)[1..];
      FindsEachInput(inputs[1..], i);
    }
  }

  lemma {:induction false} FindsEachFlag(flags: seq<StatusFlag>, f: StatusFlag)
    requires Distinct(FlagKeys(flags)) && f in flags
    ensures FindFlag(flags, f.key) == Some(f)
  {
    if flags[0] != f {
      var i :| 0 <= i < |flags| && flags[i] == f;
      assert FlagKeys(flags)[0] != FlagKeys(flags)[i];
      assert flags[1..][i - 1] == f;
      assert FlagKeys(flags[1..]) == FlagKeys(flags)[1..];
      FindsEachFlag(flags[1..], f);
    }
  }

  lemma {:induction false} FindsEachStage(stages: seq<Stage>, s: Stage)
    requires Distinct(StageKeys(stages)) && s in stages
    ensures FindStage(stages, s.key) == Some(s)
  {
    if stages[0] != s {
      var i :| 0 <= i < |stages| && stages[i] == s;
      assert StageKeys(stages)[0] != StageKeys(stages)[i];
      assert stages[1..][i - 1] == s;
      assert StageKeys(stages[1..]) == StageKeys(stages)[1..];
      FindsEachStage(stages[1..], s);
    }
  }

  // ---- Flags by what they do ----

  predicate Terminal(d: Definition, key: Key) {
    exists i :: 0 <= i < |d.statusFlags| && d.statusFlags[i].key == key && d.statusFlags[i].terminal
  }

  predicate Editable(d: Definition, key: Key) {
    exists i :: 0 <= i < |d.statusFlags| && d.statusFlags[i].key == key && d.statusFlags[i].editable
  }

  /** Whether the file holds a flag that has handed it to the applicant. */
  predicate AwaitsApplicant(d: Definition, flags: set<Key>) {
    exists i :: 0 <= i < |d.statusFlags| && d.statusFlags[i].editable && d.statusFlags[i].key in flags
  }

  // ---- Conditions ----

  predicate IsAnswered(value: Option<Value>) {
    match value
    case None => false
    case Some(Null) => false
    case Some(Text(text)) => |text| > 0
    case Some(Choices(choices)) => |choices| > 0
    case Some(_) => true
  }

  function Decimal(n: nat): string {
    if n < 10 then [('0' as int + n) as char] else Decimal(n / 10) + [('0' as int + n % 10) as char]
  }

  /** A value that is not a list, as text. */
  function Shown(value: Value): string
    requires !value.Choices?
  {
    match value
    case Text(text) => text
    case Number(number) => if number < 0 then "-" + Decimal(-number) else Decimal(number)
    case Truth(truth) => if truth then "true" else "false"
    case Null => "null"
  }

  predicate CompareValue(host: Host, operator: Operator, answer: Option<Value>, expected: Option<string>, inputType: InputType) {
    if operator.IsPresent? then IsAnswered(answer)
    else if operator.IsAbsent? then !IsAnswered(answer)
    else if expected.None? || !IsAnswered(answer) then false
    else if operator.Equals? || operator.NotEquals? then
      var matches := if answer.value.Choices? then expected.value in answer.value.choices else Shown(answer.value) == expected.value;
      if operator.Equals? then matches else !matches
    else host.ordered(operator, answer.value, expected.value, inputType)
  }

  function Lookup(values: Values, key: Key): Option<Value> { if key in values then Some(values[key]) else None }

  /** The operand a condition compares, or none when its key names nothing. */
  function Operand(d: Definition, state: FileState, inputs: Values, action: Action, c: Condition): Option<(Option<Value>, InputType)> {
    match c.source
    case FromAnswer =>
      if c.answerType.Some? then Some((Lookup(state.answers, c.key), c.answerType.value)) else None
    case FromFlag =>
      if FlagOf(d, c.key).Some? then Some((if c.key in state.flags then Some(Truth(true)) else None, Boolean)) else None
    case FromRecorded =>
      var declared := FindRecorded(d.recordedValues, c.key);
      if declared.Some? then Some((Lookup(state.recorded, c.key), declared.value.valueType)) else None
    case FromInput =>
      var declared := FindInput(action.inputs, c.key);
      if declared.Some? then Some((Lookup(inputs, c.key), declared.value.inputType)) else None
  }

  predicate Holds(host: Host, d: Definition, state: FileState, inputs: Values, action: Action, c: Condition) {
    var operand := Operand(d, state, inputs, action, c);
    operand.Some? && CompareValue(host, c.operator, operand.value.0, c.value, operand.value.1)
  }

  /** An empty set of conditions always holds. */
  predicate ConditionsHold(
    host: Host, d: Definition, state: FileState, inputs: Values, action: Action, conditions: seq<Condition>) {
    conditions == [] ||
    exists i :: 0 <= i < |conditions| &&
      forall j :: 0 <= j < |conditions| && conditions[j].group == conditions[i].group ==>
        Holds(host, d, state, inputs, action, conditions[j])
  }
}
