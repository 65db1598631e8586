/** Fields of a project row: values, their normal form, the field schema, and the edit commands of
    the board. */
module BoardModel {
  import opened Wrappers

  // ---- Scalars ----

  /** The characters `str.strip` removes. */
  predicate IsSpace(c: char) {
    var v := c as int;
    9 <= v <= 13 || 28 <= v <= 32 || v == 0x85 || v == 0xA0 || v == 0x1680 || 0x2000 <= v <= 0x200A
    || v == 0x2028 || v == 0x2029 || v == 0x202F || v == 0x205F || v == 0x3000
  }

  predicate Stripped(s: string) {
    s == "" || (!IsSpace(s[0]) && !IsSpace(s[|s| - 1]))
  }

  function Strip(s: string): (r: string)
    ensures Stripped(r) && (Stripped(s) ==> r == s)
    decreases |s|
  {
    if s == "" then ""
    else if IsSpace(s[0]) then Strip(s[1..])
    else if IsSpace(s[|s| - 1]) then Strip(s[..|s| - 1])
    else s
  }

  /** `normalize_scalar`: stripped text; blank text is no value. */
  function Normalize(value: Option<string>): (r: Option<string>)
    ensures r.Some? ==> r.value != "" && Stripped(r.value)
    ensures Normal(value) <==> r == value
  {
    match value
    case None => None
    case Some(s) => if Strip(s) == "" then None else Some(Strip(s))
  }

  ghost predicate AllSpace(s: string) {
    forall k | 0 <= k < |s| :: IsSpace(s[k])
  }

  /** `t` is `s` without the spaces around it. */
  ghost predicate Trims(s: string, t: string) {
    Stripped(t) && exists i: nat, j: nat :: i <= j <= |s| && s[i..j] == t && AllSpace(s[..i]) && AllSpace(s[j..])
  }

  lemma TrimsAt(s: string, t: string, i: nat, j: nat)
    requires i <= j <= |s| && s[i..j] == t && AllSpace(s[..i]) && AllSpace(s[j..]) && Stripped(t)
    ensures Trims(s, t)
  {
  }

  lemma TrimFront(s: string, t: string)
    requires s != "" && IsSpace(s[0]) && Trims(s[1..], t)
    ensures Trims(s, t)
  {
    hide Stripped, IsSpace;
    var rest := s[1..];
    var i: nat, j: nat :| i <= j <= |rest| && rest[i..j] == t && AllSpace(rest[..i]) && AllSpace(rest[j..]);
    assert s == [s[0]] + rest;
    assert AllSpace(s[..i + 1]) by {
      assert s[..i + 1] == [s[0]] + rest[..i];
    }
    assert s[j + 1..] == rest[j..];
    assert s[i + 1..j + 1] == rest[i..j];
    TrimsAt(s, t, i + 1, j + 1);
  }

  lemma TrimBack(s: string, t: string)
    requires s != "" && IsSpace(s[|s| - 1]) && Trims(s[..|s| - 1], t)
    ensures Trims(s, t)
  {
    hide Stripped, IsSpace;
    var front := s[..|s| - 1];
    var i: nat, j: nat :| i <= j <= |front| && front[i..j] == t && AllSpace(front[..i]) && AllSpace(front[j..]);
    assert s[..i] == front[..i] && s[j..] == front[j..] + [s[|s| - 1]] && s[i..j] == front[i..j];
    TrimsAt(s, t, i, j);
  }

  lemma {:induction false} StripTrims(s: string)
    ensures Trims(s, Strip(s))
    decreases |s|
  {
    hide IsSpace, Trims;
    if s == "" {
      TrimsAt(s, "", 0, 0);
    } else if IsSpace(s[0]) {
      StripTrims(s[1..]);
      TrimFront(s, Strip(s));
    } else if IsSpace(s[|s| - 1]) {
      StripTrims(s[..|s| - 1]);
      TrimBack(s, Strip(s));
    } else {
      assert s[0..|s|] == s && s[..0] == "" && s[|s|..] == "";
      TrimsAt(s, s, 0, |s|);
    }
  }

  /** A value is normalised to its text without the spaces around it, to no value when nothing is
      left. */
  lemma NormalizeTrims(value: Option<string>)
    ensures match Normalize(value)
      case None => value.Some? ==> AllSpace(value.value)
      case Some(text) => text != "" && value.Some? && Trims(value.value, text)
  {
    if value.Some? {
      StripTrims(value.value);
      if Strip(value.value) == "" {
        var s := value.value;
        var i: nat, j: nat :| i <= j <= |s| && s[i..j] == "" && AllSpace(s[..i]) && AllSpace(s[j..]);
        assert forall k | 0 <= k < |s| :: if k < i then s[k] == s[..i][k] else s[k] == s[j..][k - j];
      }
    }
  }

  predicate Normal(value: Option<string>) {
    value.Some? ==> value.value != "" && Stripped(value.value)
  }

  // ---- Fields ----

  datatype FieldKey =
    | Title | Status | Domain | Track | Commitment | DeliveryMode | Priority | StartDate | TargetDate | HackathonPhase

  const TRACKED: seq<FieldKey> :=
    [Title, Status, Domain, Track, Commitment, DeliveryMode, Priority, StartDate, TargetDate, HackathonPhase]

  predicate Inherited(key: FieldKey) {
    key != Title && key != Status
  }

  lemma AllTracked(key: FieldKey)
    ensures key in TRACKED
  {
    assert TRACKED[0] == Title && TRACKED[1] == Status && TRACKED[2] == Domain && TRACKED[3] == Track
      && TRACKED[4] == Commitment && TRACKED[5] == DeliveryMode && TRACKED[6] == Priority
      && TRACKED[7] == StartDate && TRACKED[8] == TargetDate && TRACKED[9] == HackathonPhase;
  }

  lemma TrackedAt(key: FieldKey) returns (i: nat)
    ensures i < |TRACKED| && TRACKED[i] == key
  {
    AllTracked(key);
    i :| 0 <= i < |TRACKED| && TRACKED[i] == key;
  }

  lemma EveryKeyTracked()
    ensures forall key: FieldKey :: key in TRACKED
  {
    forall key: FieldKey ensures key in TRACKED {
      AllTracked(key);
    }
  }

  datatype Field = Field(value: Option<string>, optionId: Option<string>)

  const NO_FIELD := Field(None, None)

  /** A row has every tracked field. */
  ghost predicate HasAllFields(m: map<FieldKey, Field>) {
    forall key: FieldKey :: key in m
  }

  /** A row whose only known field is its title, as a freshly added item has. */
  function TitledFields(title: Field): (m: map<FieldKey, Field>)
    ensures HasAllFields(m)
    ensures forall key: FieldKey :: m[key] == if key == Title then title else NO_FIELD
  {
    EveryKeyTracked();
    map key: FieldKey | key in TRACKED :: if key == Title then title else NO_FIELD
  }

  type Fields = m: map<FieldKey, Field> | HasAllFields(m) witness TitledFields(NO_FIELD)

  /** The rows of the project board, one per issue. */
  type Board = map<string, Fields>

  function NormalizeField(f: Field): Field {
    Field(Normalize(f.value), Normalize(f.optionId))
  }

  predicate ValueMatches(current: Field, desired: Field) {
    NormalizeField(current) == NormalizeField(desired)
  }

  /** `apply_local_field_value`, skipped where `value_matches`. */
  function Applied(current: Field, desired: Field): (r: Field)
    ensures ValueMatches(r, desired)
  {
    if ValueMatches(current, desired) then current else NormalizeField(desired)
  }

  // ---- Changes ----

  datatype Change = Change(key: FieldKey, after: Field)

  function ApplyChange(fields: Fields, change: Change): (r: Fields)
    ensures forall key: FieldKey | key != change.key :: r[key] == fields[key]
  {
    fields[change.key := Applied(fields[change.key], change.after)]
  }

  function ApplyChanges(fields: Fields, changes: seq<Change>): Fields {
    if changes == [] then fields else ApplyChanges(ApplyChange(fields, changes[0]), changes[1..])
  }

  predicate DistinctKeys(changes: seq<Change>) {
    forall i, j | 0 <= i < j < |changes| :: changes[i].key != changes[j].key
  }

  /** Changes of distinct fields do not disturb each other. */
  lemma {:induction false} AppliedFields(fields: Fields, changes: seq<Change>)
    requires DistinctKeys(changes)
    ensures forall i | 0 <= i < |changes| ::
      ApplyChanges(fields, changes)[changes[i].key] == Applied(fields[changes[i].key], changes[i].after)
    ensures forall key: FieldKey | (forall i | 0 <= i < |changes| :: changes[i].key != key) ::
      ApplyChanges(fields, changes)[key] == fields[key]
  {
    if changes != [] {
      AppliedFields(ApplyChange(fields, changes[0]), changes[1..]);
      assert forall i | 1 <= i < |changes| :: changes[i] == changes[1..][i - 1];
      assert forall i | 0 <= i < |changes[1..]| :: changes[1..][i].key != changes[0].key;
    }
  }

  // ---- Schema ----

  datatype FieldType = SelectField | DateField | TextField

  /** A field of the board: its type, and the names and ids of its options. */
  datatype FieldDefinition = FieldDefinition(fieldType: FieldType, options: map<string, string>)

  ghost predicate DefinesAllFields(m: map<FieldKey, FieldDefinition>) {
    forall key: FieldKey :: key in m
  }

  /** A schema without select fields. */
  function PlainSchema(): (m: map<FieldKey, FieldDefinition>)
    ensures DefinesAllFields(m)
    ensures forall key: FieldKey ::
      m[key] == FieldDefinition(if key in {StartDate, TargetDate} then DateField else TextField, map[])
  {
    EveryKeyTracked();
    map key: FieldKey | key in TRACKED ::
      FieldDefinition(if key in {StartDate, TargetDate} then DateField else TextField, map[])
  }

  type Schema = m: map<FieldKey, FieldDefinition> | DefinesAllFields(m) witness PlainSchema()

  function Options(schema: Schema, key: FieldKey): map<string, string> {
    schema[key].options
  }

  /** Only select fields have options; their ids are not blank and name one option each. */
  ghost predicate WellFormedSchema(schema: Schema) {
    && (forall key: FieldKey | Options(schema, key) != map[] :: schema[key].fieldType == SelectField)
    && forall key: FieldKey, a, b {:trigger Options(schema, key)[a], Options(schema, key)[b]} |
         a in Options(schema, key) && b in Options(schema, key) ::
         && Normalize(Some(Options(schema, key)[a])).Some?
         && (Options(schema, key)[a] == Options(schema, key)[b] ==> a == b)
  }

  /** The board's field is of the type that the scripts take it for: a select field has options, and
      the start and target dates are dates, unless they are select fields, and the only ones. */
  predicate Typed(schema: Schema, key: FieldKey) {
    match schema[key].fieldType
    case SelectField => Options(schema, key) != map[]
    case DateField => key in {StartDate, TargetDate}
    case TextField => key !in {StartDate, TargetDate}
  }

  ghost predicate WellTyped(schema: Schema) {
    forall key: FieldKey :: Typed(schema, key)
  }

  /** Option ids without spaces around them. */
  ghost predicate NormalOptionIds(schema: Schema) {
    forall key: FieldKey, a {:trigger Options(schema, key)[a]} | a in Options(schema, key) ::
      Normal(Some(Options(schema, key)[a]))
  }

  datatype UnknownOption = UnknownOption(key: FieldKey, value: string)

  /** `desired_field_value`: the normal value, with the id of its option if the field has options.
      Only a value that no option is named after is refused. */
  function DesiredField(schema: Schema, key: FieldKey, value: Option<string>): (r: Result<Field, UnknownOption>)
    ensures r.Ok? ==> r.value.value == Normalize(value)
    ensures r.Ok? ==> (r.value.optionId.Some? <==> r.value.value.Some? && Options(schema, key) != map[])
    ensures r.Ok? && r.value.optionId.Some? ==>
      exists name | name in Options(schema, key) ::
        Normalize(value) == Some(name) && r.value.optionId == Some(Options(schema, key)[name])
    ensures r.Err? <==>
      Normalize(value).Some? && Options(schema, key) != map[] && Normalize(value).value !in Options(schema, key)
  {
    var normal := Normalize(value);
    var options := Options(schema, key);
    if normal.None? || options == map[] then Ok(Field(normal, None))
    else if normal.value in options then Ok(Field(normal, Some(options[normal.value])))
    else Err(UnknownOption(key, normal.value))
  }

  /** The desired fields the planner can produce. */
  predicate IsDesired(schema: Schema, key: FieldKey, f: Field) {
    DesiredField(schema, key, f.value) == Ok(f)
  }

  /** Desired fields that are empty or of the right type. */
  predicate Plannable(schema: Schema, key: FieldKey, f: Field) {
    IsDesired(schema, key, f) && (f.value.Some? ==> Typed(schema, key))
  }

  // ---- Edit commands ----

  datatype EditCommand = Clear | SelectOption(optionId: string) | SetText(text: string) | SetDate(date: string)

  /** `project_item_field_command`: the arguments of the edit; None where it refuses. */
  function CommandFor(schema: Schema, key: FieldKey, desired: Field): Option<EditCommand> {
    if desired == NO_FIELD then Some(Clear)
    else if schema[key].fieldType == SelectField then
      if Normalize(desired.optionId).Some? then Some(SelectOption(desired.optionId.value)) else None
    else if desired.value.None? || Normalize(desired.value).None? then None
    else if key == StartDate || key == TargetDate then Some(SetDate(desired.value.value))
    else Some(SetText(desired.value.value))
  }

  /** Which edit a field gets, whatever is desired: a select field its option, a date or text its value,
      neither of them blank; an empty field is cleared; nothing else is sent. */
  lemma CommandKinds(schema: Schema, key: FieldKey, desired: Field)
    ensures var edit, select := CommandFor(schema, key, desired), schema[key].fieldType == SelectField;
      var id, text := Normalize(desired.optionId), Normalize(desired.value);
      && (edit == Some(Clear) <==> desired.value.None? && desired.optionId.None?)
      && (edit.Some? && edit.value.SelectOption? <==> select && id.Some?)
      && (edit.Some? && edit.value.SelectOption? ==> desired.optionId == Some(edit.value.optionId))
      && (edit.Some? && edit.value.SetDate? <==> !select && text.Some? && (key == StartDate || key == TargetDate))
      && (edit.Some? && edit.value.SetDate? ==> desired.value == Some(edit.value.date))
      && (edit.Some? && edit.value.SetText? <==> !select && text.Some? && key != StartDate && key != TargetDate)
      && (edit.Some? && edit.value.SetText? ==> desired.value == Some(edit.value.text))
  {
    hide Strip;
  }

  /** The name of an option id. */
  function OptionName(schema: Schema, key: FieldKey, id: string): (name: Option<string>)
    requires WellFormedSchema(schema)
    ensures forall n | n in Options(schema, key) && Options(schema, key)[n] == id :: name == Some(n)
  {
    var options := Options(schema, key);
    if exists n :: n in options && options[n] == id then
      var n :| n in options && options[n] == id;
      assert forall m | m in options && options[m] == id :: m == n;
      Some(n)
    else None
  }

  /** What a capture shows after an edit: a select field takes the option's name as its value, and
      captured values are normal. */
  function CommandEffect(schema: Schema, key: FieldKey, command: EditCommand): Field
    requires WellFormedSchema(schema)
  {
    NormalizeField(
      match command
      case Clear => NO_FIELD
      case SelectOption(id) => Field(OptionName(schema, key, id), Some(id))
      case SetText(text) => Field(Some(text), None)
      case SetDate(date) => Field(Some(date), None))
  }

  /** The board carries out an edit of the field's type; a select takes one of its options. */
  predicate Accepts(schema: Schema, key: FieldKey, edit: EditCommand) {
    match edit
    case Clear => true
    case SelectOption(id) => schema[key].fieldType == SelectField && id in Options(schema, key).Values
    case SetText(_) => schema[key].fieldType == TextField
    case SetDate(_) => schema[key].fieldType == DateField
  }

  /** What an edit sends for a desired field: its option, date or text, and nothing only for an empty
      one. */
  predicate Sends(schema: Schema, key: FieldKey, edit: EditCommand, desired: Field) {
    match edit
    case Clear => desired == NO_FIELD
    case SelectOption(id) =>
      && desired.value.Some? && desired.value.value in Options(schema, key)
      && id == Options(schema, key)[desired.value.value] && desired.optionId == Some(id)
    case SetText(text) => desired == Field(Some(text), None)
    case SetDate(date) => desired == Field(Some(date), None)
  }

  /** The edit of a field the planner can produce is accepted exactly when the field is empty or of the
      type the scripts take it for. */
  lemma AcceptedIffTyped(schema: Schema, key: FieldKey, desired: Field)
    requires WellFormedSchema(schema) && IsDesired(schema, key, desired)
    ensures var edit := CommandFor(schema, key, desired);
      edit.Some? && Accepts(schema, key, edit.value) <==> desired.value.None? || Typed(schema, key)
  {
    var options := Options(schema, key);
    if desired.value.Some? && options != map[] {
      assert options[desired.value.value] == desired.optionId.value;
      assert Normalize(Some(options[desired.value.value])).Some?;
    }
  }

  /** For a plannable field the command is never refused, is accepted by the board and sends what is
      desired, option, date or text, as the type of the field is; the board and the local row are both
      left with exactly the desired field in normal form. */
  lemma CommandSetsDesired(schema: Schema, key: FieldKey, desired: Field)
    requires WellFormedSchema(schema) && Plannable(schema, key, desired)
    ensures var command := CommandFor(schema, key, desired);
      && command.Some?
      && Accepts(schema, key, command.value) && Sends(schema, key, command.value, desired)
      && CommandEffect(schema, key, command.value) == NormalizeField(desired)
    ensures desired.value == Normalize(desired.value)
  {
    var options := Options(schema, key);
    if desired.value.Some? && options != map[] {
      assert options[desired.value.value] == desired.optionId.value;
      assert Normalize(Some(options[desired.value.value])).Some?;
    }
  }
}
