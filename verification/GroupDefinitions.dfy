/** Reusable structures, expanded into the flat rows everything downstream reads (src/services/admin/group-definitions.ts). */
module GroupDefinitions {
  import opened Common

  const MAX_DEFINITIONS := 16
  const MAX_MEMBERS := 24
  const MAX_KEY_LENGTH := 64

  datatype FieldType = RepeatGroup | File | Statement | DateField | OtherType(name: string)

  datatype Role = DateOfBirth | OtherRole(name: string)

  /** `shape` is everything else a question carries, copied as it is. */
  datatype Member = Member(memberKey: Key, fieldType: FieldType, role: Option<Role>, options: seq<string>, shape: string)

  datatype Definition = Definition(definitionKey: Key, labelIsBlank: bool, members: seq<Member>)

  datatype Field = Field(
    fieldKey: Key, stageKey: Key, fieldType: FieldType, role: Option<Role>,
    parentFieldKey: Option<Key>, groupDefinitionKey: Option<Key>, shape: string)

  datatype FieldOption = FieldOption(fieldKey: Key, fieldType: FieldType, option: string)

  datatype Condition = Condition(fieldKey: Key, sourceFieldKey: Key)

  datatype Template = Template(
    fields: seq<Field>, options: seq<FieldOption>, conditions: seq<Condition>, definitions: seq<Definition>)

  datatype Fault =
    | TooManyDefinitions | BadDefinitionKey(key: Key) | DefinedTwice(key: Key) | Unnamed(key: Key)
    | NoMembers(key: Key) | TooManyMembers(key: Key)
    | BadMemberKey(key: Key) | MemberTwice(key: Key) | MemberType(key: Key) | MemberRole(key: Key) | MemberRoleType(key: Key)
    | NotAGroup(key: Key) | NoSuchStructure(key: Key) | OwnMembers(key: Key) | RuleOnMember(key: Key)
    | KeyTooLong(key: Key) | KeyCollides(key: Key)

  /** `^[A-Z][A-Z0-9_]{1,63}$` */
  predicate IsKey(k: Key) {
    && 2 <= |k| <= 64 && 'A' <= k[0] <= 'Z'
    && forall i :: 1 <= i < |k| ==> 'A' <= k[i] <= 'Z' || '0' <= k[i] <= '9' || k[i] == '_'
  }

  predicate IsUse(f: Field) { f.groupDefinitionKey.Some? && f.groupDefinitionKey.value != "" }

  function Qualified(use: Key, member: Key): Key { use + "__" + member }

  // ---- What a sound set of definitions and uses is ----

  predicate SoundMember(m: Member) {
    && IsKey(m.memberKey)
    && !m.fieldType.RepeatGroup? && !m.fieldType.File? && !m.fieldType.Statement?
    && (m.role.Some? ==> m.role.value == DateOfBirth && m.fieldType.DateField?)
  }

  function MemberKeys(members: seq<Member>): seq<Key> {
    seq(|members|, i requires 0 <= i < |members| => members[i].memberKey)
  }

  predicate SoundMembers(members: seq<Member>) {
    (forall i :: 0 <= i < |members| ==> SoundMember(members[i])) && Distinct(MemberKeys(members))
  }

  predicate SoundDefinition(d: Definition) {
    IsKey(d.definitionKey) && !d.labelIsBlank && 1 <= |d.members| <= 24 && SoundMembers(d.members)
  }

  function DefinitionKeys(definitions: seq<Definition>): seq<Key> {
    seq(|definitions|, i requires 0 <= i < |definitions| => definitions[i].definitionKey)
  }

  predicate SoundDefinitions(definitions: seq<Definition>) {
    && |definitions| <= 16
    && (forall i :: 0 <= i < |definitions| ==> SoundDefinition(definitions[i]))
    && Distinct(DefinitionKeys(definitions))
  }

  /** The definition a key names; where two share it, the later one. */
  function Named(definitions: seq<Definition>, key: Key): Option<Definition> {
    if definitions == [] then None
    else if definitions[|definitions| - 1].definitionKey == key then Some(definitions[|definitions| - 1])
    else Named(definitions[..|definitions| - 1], key)
  }

  predicate SoundUse(t: Template, use: Field)
    requires IsUse(use)
  {
    && use.fieldType.RepeatGroup?
    && Named(t.definitions, use.groupDefinitionKey.value).Some?
    && forall i :: 0 <= i < |t.fields| ==> t.fields[i].parentFieldKey != Some(use.fieldKey)
  }

  predicate Touches(c: Condition, use: Field) {
    Qualified(use.fieldKey, "") <= c.fieldKey || Qualified(use.fieldKey, "") <= c.sourceFieldKey
  }

  predicate SoundUses(t: Template) {
    forall i :: 0 <= i < |t.fields| && IsUse(t.fields[i]) ==>
      SoundUse(t, t.fields[i]) && forall c :: 0 <= c < |t.conditions| ==> !Touches(t.conditions[c], t.fields[i])
  }

  method MembersProblem(members: seq<Member>) returns (fault: Option<Fault>)
    ensures fault == None <==> SoundMembers(members)
  {
    var memberKeys: set<Key> := {};
    for i := 0 to |members|
      invariant SoundMembers(members[..i]) && memberKeys == ToSet(MemberKeys(members[..i]))
    {
      var m := members[i];
      assert members[..i + 1] == members[..i] + [m];
      assert MemberKeys(members[..i + 1]) == MemberKeys(members[..i]) + [m.memberKey];
      if !IsKey(m.memberKey) { return Some(BadMemberKey(m.memberKey)); }
      if m.memberKey in memberKeys {
        assert MemberKeys(members)[..i] == MemberKeys(members[..i]);
        RepeatIsNotDistinct(MemberKeys(members), i);
        return Some(MemberTwice(m.memberKey));
      }
      memberKeys := memberKeys + {m.memberKey};
      if m.fieldType.RepeatGroup? || m.fieldType.File? || m.fieldType.Statement? { return Some(MemberType(m.memberKey)); }
      if m.role.Some? && m.role.value != DateOfBirth { return Some(MemberRole(m.memberKey)); }
      if m.role == Some(DateOfBirth) && !m.fieldType.DateField? { return Some(MemberRoleType(m.memberKey)); }
    }
    assert members[..|members|] == members;
    fault := None;
  }

  method DefinitionProblem(definitions: seq<Definition>) returns (fault: Option<Fault>)
    ensures fault == None <==> SoundDefinitions(definitions)
  {
    if |definitions| > MAX_DEFINITIONS { return Some(TooManyDefinitions); }
    var seen: set<Key> := {};
    for i := 0 to |definitions|
      invariant SoundDefinitions(definitions[..i]) && seen == ToSet(DefinitionKeys(definitions[..i]))
    {
      var d := definitions[i];
      assert definitions[..i + 1] == definitions[..i] + [d];
      assert DefinitionKeys(definitions[..i + 1]) == DefinitionKeys(definitions[..i]) + [d.definitionKey];
      if !IsKey(d.definitionKey) { return Some(BadDefinitionKey(d.definitionKey)); }
      if d.definitionKey in seen {
        assert DefinitionKeys(definitions)[..i] == DefinitionKeys(definitions[..i]);
        RepeatIsNotDistinct(DefinitionKeys(definitions), i);
        return Some(DefinedTwice(d.definitionKey));
      }
      seen := seen + {d.definitionKey};
      if d.labelIsBlank { return Some(Unnamed(d.definitionKey)); }
      if |d.members| == 0 { return Some(NoMembers(d.definitionKey)); }
      if |d.members| > MAX_MEMBERS { return Some(TooManyMembers(d.definitionKey)); }
      var membersFault := MembersProblem(d.members);
      if membersFault.Some? { return membersFault; }
    }
    assert definitions[..|definitions|] == definitions;
    fault := None;
  }

  function UsesIn(fields: seq<Field>): seq<Field> {
    if fields == [] then []
    else UsesIn(fields[..|fields| - 1]) + if IsUse(fields[|fields| - 1]) then [fields[|fields| - 1]] else []
  }

  lemma {:induction false} UsesAreTheUses(fields: seq<Field>)
    ensures forall f :: f in UsesIn(fields) <==> f in fields && IsUse(f)
  {
    if fields != [] {
      UsesAreTheUses(fields[..|fields| - 1]);
    }
  }

  method StructureUseProblem(t: Template, uses: seq<Field>) returns (fault: Option<Fault>)
    requires uses == UsesIn(t.fields)
    ensures fault == None <==> SoundUses(t)
  {
    UsesAreTheUses(t.fields);
    for u := 0 to |uses|
      invariant forall k :: 0 <= k < u ==> SoundUse(t, uses[k])
    {
      var use := uses[u];
      assert use in uses;
      if !use.fieldType.RepeatGroup? { return Some(NotAGroup(use.fieldKey)); }
      if Named(t.definitions, use.groupDefinitionKey.value).None? { return Some(NoSuchStructure(use.fieldKey)); }
      if exists i :: 0 <= i < |t.fields| && t.fields[i].parentFieldKey == Some(use.fieldKey) {
        return Some(OwnMembers(use.fieldKey));
      }
    }
    for c := 0 to |t.conditions|
      invariant forall b, k :: 0 <= b < c && 0 <= k < |uses| ==> !Touches(t.conditions[b], uses[k])
    {
      for u := 0 to |uses|
        invariant forall k :: 0 <= k < u ==> !Touches(t.conditions[c], uses[k])
      {
        var condition, prefix := t.conditions[c], Qualified(uses[u].fieldKey, "");
        if prefix <= condition.fieldKey || prefix <= condition.sourceFieldKey {
          assert uses[u] in uses && Touches(condition, uses[u]);
          return Some(RuleOnMember(if prefix <= condition.fieldKey then condition.fieldKey else condition.sourceFieldKey));
        }
      }
    }
    fault := None;
  }

  // ---- What expansion makes ----

  function MemberRow(use: Field, m: Member): Field {
    Field(Qualified(use.fieldKey, m.memberKey), use.stageKey, m.fieldType, m.role, Some(use.fieldKey), None, m.shape)
  }

  function MemberRows(use: Field, members: seq<Member>): seq<Field> {
    seq(|members|, i requires 0 <= i < |members| => MemberRow(use, members[i]))
  }

  function MemberOptions(use: Field, m: Member): seq<FieldOption> {
    seq(|m.options|, i requires 0 <= i < |m.options| =>
      FieldOption(Qualified(use.fieldKey, m.memberKey), m.fieldType, m.options[i]))
  }

  function AllMemberOptions(use: Field, members: seq<Member>): seq<FieldOption> {
    if members == [] then [] else AllMemberOptions(use, members[..|members| - 1]) + MemberOptions(use, members[|members| - 1])
  }

  /** The members a row brings with it: its structure's, or none for an ordinary question. */
  function MembersOf(definitions: seq<Definition>, f: Field): seq<Member> {
    if IsUse(f) && Named(definitions, f.groupDefinitionKey.value).Some?
    then Named(definitions, f.groupDefinitionKey.value).value.members else []
  }

  function ExpandedFields(definitions: seq<Definition>, fields: seq<Field>): seq<Field> {
    if fields == [] then []
    else
      var f := fields[|fields| - 1];
      ExpandedFields(definitions, fields[..|fields| - 1]) + [f] + MemberRows(f, MembersOf(definitions, f))
  }

  function DerivedOptions(definitions: seq<Definition>, fields: seq<Field>): seq<FieldOption> {
    if fields == [] then []
    else
      var f := fields[|fields| - 1];
      DerivedOptions(definitions, fields[..|fields| - 1]) + AllMemberOptions(f, MembersOf(definitions, f))
  }

  function QualifiedKeys(use: Field, members: seq<Member>): seq<Key> {
    seq(|members|, i requires 0 <= i < |members| => Qualified(use.fieldKey, members[i].memberKey))
  }

  function DerivedKeys(definitions: seq<Definition>, fields: seq<Field>): seq<Key> {
    if fields == [] then []
    else
      var f := fields[|fields| - 1];
      DerivedKeys(definitions, fields[..|fields| - 1]) + QualifiedKeys(f, MembersOf(definitions, f))
  }

  function FieldKeys(fields: seq<Field>): seq<Key> {
    seq(|fields|, i requires 0 <= i < |fields| => fields[i].fieldKey)
  }

  /** Every new key is short enough, new to the form, and made once. */
  predicate FreshKeys(existing: seq<Key>, derived: seq<Key>) {
    && (forall i :: 0 <= i < |derived| ==> |derived[i]| <= 64 && derived[i] !in existing)
    && Distinct(derived)
  }

  predicate Untouched(t: Template) { t.definitions == [] && UsesIn(t.fields) == [] }

  predicate Expands(t: Template) {
    SoundDefinitions(t.definitions) && SoundUses(t) && FreshKeys(FieldKeys(t.fields), DerivedKeys(t.definitions, t.fields))
  }

  lemma {:induction false} DerivedPrefix(definitions: seq<Definition>, fields: seq<Field>, i: nat)
    requires i <= |fields|
    ensures DerivedKeys(definitions, fields[..i]) <= DerivedKeys(definitions, fields)
  {
    if i == |fields| {
      assert fields[..i] == fields;
    } else {
      assert fields[..|fields| - 1][..i] == fields[..i];
      DerivedPrefix(definitions, fields[..|fields| - 1], i);
    }
  }

  lemma FreshPrefix(existing: seq<Key>, shorter: seq<Key>, longer: seq<Key>)
    requires shorter <= longer && FreshKeys(existing, longer)
    ensures FreshKeys(existing, shorter)
  {
    forall i | 0 <= i < |shorter| ensures shorter[i] == longer[i] {
    }
  }

  /** The form with every structure's rows and options in it. */
  function Expanded(t: Template): Template {
    t.(fields := ExpandedFields(t.definitions, t.fields), options := t.options + DerivedOptions(t.definitions, t.fields))
  }

  /**
   * Succeeds exactly when the definitions, the uses and every derived key are sound, and then puts
   * each structure's members, and their options, directly after the question that uses it.
   */
  method ExpandGroupDefinitions(t: Template) returns (result: Result<Template, Fault>)
    ensures result.Success? <==> Untouched(t) || Expands(t)
    ensures result.Success? ==> result.value == Expanded(t)
  {
    var uses := UsesIn(t.fields);
    UsesAreTheUses(t.fields);
    if t.definitions == [] && uses == [] {
      NothingToExpand(t.definitions, t.fields);
      NothingToDerive(t.definitions, t.fields);
      assert t.options + [] == t.options;
      return Success(t);
    }
    var problem := DefinitionProblem(t.definitions);
    if problem.Some? { return Failure(problem.value); }
    var useFault := StructureUseProblem(t, uses);
    if useFault.Some? { return Failure(useFault.value); }
    var fields, options, fault := ExpandRows(t);
    result := if fault.Some? then Failure(fault.value) else Success(t.(fields := fields, options := t.options + options));
  }

  /** Walks the questions in order, giving each use its members, until a derived key cannot be had. */
  method ExpandRows(t: Template) returns (fields: seq<Field>, options: seq<FieldOption>, fault: Option<Fault>)
    ensures fault == None <==> FreshKeys(FieldKeys(t.fields), DerivedKeys(t.definitions, t.fields))
    ensures fault == None ==> fields == ExpandedFields(t.definitions, t.fields)
    ensures fault == None ==> options == DerivedOptions(t.definitions, t.fields)
  {
    ghost var existing := FieldKeys(t.fields);
    var existingKeys := ToSet(FieldKeys(t.fields));
    fields, options, fault := [], [], None;
    for i := 0 to |t.fields|
      invariant fault == None
      invariant fields == ExpandedFields(t.definitions, t.fields[..i])
      invariant options == DerivedOptions(t.definitions, t.fields[..i])
      invariant FreshKeys(existing, DerivedKeys(t.definitions, t.fields[..i]))
      invariant existingKeys == ToSet(existing + DerivedKeys(t.definitions, t.fields[..i]))
    {
      var f := t.fields[i];
      assert t.fields[..i + 1][..i] == t.fields[..i];
      var members := MembersOf(t.definitions, f);
      var rows, more;
      rows, more, existingKeys, fault := ExpandUse(f, members, existingKeys, existing, DerivedKeys(t.definitions, t.fields[..i]));
      if fault.Some? {
        NotFreshStaysNotFresh(t.definitions, t.fields, i, existing);
        return;
      }
      fields := fields + [f] + rows;
      options := options + more;
    }
    assert t.fields[..|t.fields|] == t.fields;
  }

  /** The rows and options one question brings, or the first of its keys that is too long or already taken. */
  method ExpandUse(f: Field, members: seq<Member>, existingKeys: set<Key>, ghost existing: seq<Key>, ghost derived: seq<Key>)
    returns (rows: seq<Field>, options: seq<FieldOption>, keys: set<Key>, fault: Option<Fault>)
    requires FreshKeys(existing, derived) && existingKeys == ToSet(existing + derived)
    ensures fault == None <==> FreshKeys(existing, derived + QualifiedKeys(f, members))
    ensures fault == None ==> rows == MemberRows(f, members) && options == AllMemberOptions(f, members)
    ensures fault == None ==> keys == ToSet(existing + (derived + QualifiedKeys(f, members)))
  {
    rows, options, keys, fault := [], [], existingKeys, None;
    assert derived + QualifiedKeys(f, members[..0]) == derived;
    for j := 0 to |members|
      invariant rows == MemberRows(f, members[..j]) && options == AllMemberOptions(f, members[..j])
      invariant FreshKeys(existing, derived + QualifiedKeys(f, members[..j]))
      invariant keys == ToSet(existing + (derived + QualifiedKeys(f, members[..j])))
    {
      var member := members[j];
      var qualified := Qualified(f.fieldKey, member.memberKey);
      ghost var made := derived + QualifiedKeys(f, members[..j]);
      assert members[..j + 1] == members[..j] + [member];
      assert derived + QualifiedKeys(f, members[..j + 1]) == made + [qualified];
      if |qualified| > MAX_KEY_LENGTH || qualified in keys {
        assert made + [qualified] <= derived + QualifiedKeys(f, members);
        NotFreshOneMore(existing, made, qualified, derived + QualifiedKeys(f, members));
        fault := Some(if |qualified| > MAX_KEY_LENGTH then KeyTooLong(qualified) else KeyCollides(qualified));
        return;
      }
      FreshOneMore(existing, made, qualified);
      keys := keys + {qualified};
      rows := rows + [MemberRow(f, member)];
      options := options + MemberOptions(f, member);
    }
    assert members[..|members|] == members;
  }

  lemma NotFreshOneMore(existing: seq<Key>, made: seq<Key>, key: Key, longer: seq<Key>)
    requires |key| > MAX_KEY_LENGTH || key in existing + made
    requires made + [key] <= longer
    ensures !FreshKeys(existing, longer)
  {
    assert longer[|made|] == key && longer[..|made|] == made;
    if key in made {
      RepeatIsNotDistinct(longer, |made|);
    }
  }

  lemma FreshOneMore(existing: seq<Key>, made: seq<Key>, key: Key)
    requires FreshKeys(existing, made) && |key| <= MAX_KEY_LENGTH && key !in existing + made
    ensures FreshKeys(existing, made + [key])
    ensures ToSet(existing + (made + [key])) == ToSet(existing + made) + {key}
  {
  }

  lemma NotFreshStaysNotFresh(definitions: seq<Definition>, fields: seq<Field>, i: nat, existing: seq<Key>)
    requires i < |fields|
    requires !FreshKeys(existing, DerivedKeys(definitions, fields[..i]) + QualifiedKeys(fields[i], MembersOf(definitions, fields[i])))
    ensures !FreshKeys(existing, DerivedKeys(definitions, fields))
  {
    assert fields[..i + 1][..i] == fields[..i];
    DerivedPrefix(definitions, fields, i + 1);
    if FreshKeys(existing, DerivedKeys(definitions, fields)) {
      FreshPrefix(existing, DerivedKeys(definitions, fields[..i + 1]), DerivedKeys(definitions, fields));
    }
  }

  lemma NoMembersNoRows(f: Field)
    ensures MemberRows(f, []) == [] && QualifiedKeys(f, []) == [] && AllMemberOptions(f, []) == []
  {
  }

  lemma {:induction false} NothingToExpand(definitions: seq<Definition>, fields: seq<Field>)
    requires forall i :: 0 <= i < |fields| ==> !IsUse(fields[i])
    ensures ExpandedFields(definitions, fields) == fields
  {
    if fields != [] {
      var front, f := fields[..|fields| - 1], fields[|fields| - 1];
      NothingToExpand(definitions, front);
      NoMembersNoRows(f);
      assert ExpandedFields(definitions, fields) == front + [f] + [] == fields;
    }
  }

  lemma {:induction false} NothingToDerive(definitions: seq<Definition>, fields: seq<Field>)
    requires forall i :: 0 <= i < |fields| ==> !IsUse(fields[i])
    ensures DerivedOptions(definitions, fields) == []
  {
    if fields != [] {
      NothingToDerive(definitions, fields[..|fields| - 1]);
      NoMembersNoRows(fields[|fields| - 1]);
    }
  }

  // ---- What a successful expansion promises ----

  lemma FieldKeysOfBoth(a: seq<Field>, b: seq<Field>)
    ensures FieldKeys(a + b) == FieldKeys(a) + FieldKeys(b)
  {
  }

  lemma KeysOfMemberRows(f: Field, members: seq<Member>)
    ensures FieldKeys(MemberRows(f, members)) == QualifiedKeys(f, members) && FieldKeys([f]) == [f.fieldKey]
  {
  }

  lemma {:induction false} ExpandedKeys(definitions: seq<Definition>, fields: seq<Field>)
    ensures multiset(FieldKeys(ExpandedFields(definitions, fields))) == multiset(FieldKeys(fields)) + multiset(DerivedKeys(definitions, fields))
  {
    if fields != [] {
      var front, f := fields[..|fields| - 1], fields[|fields| - 1];
      var members := MembersOf(definitions, f);
      var before, rows := ExpandedFields(definitions, front), MemberRows(f, members);
      ExpandedKeys(definitions, front);
      KeysOfMemberRows(f, members);
      FieldKeysOfBoth(before, [f]);
      FieldKeysOfBoth(before + [f], rows);
      FieldKeysOfBoth(front, [f]);
      assert fields == front + [f];
      AddTheSame(FieldKeys(before), FieldKeys(front), DerivedKeys(definitions, front), f.fieldKey, QualifiedKeys(f, members));
    }
  }

  lemma AddTheSame(all: seq<Key>, own: seq<Key>, derived: seq<Key>, key: Key, more: seq<Key>)
    requires multiset(all) == multiset(own) + multiset(derived)
    ensures multiset(all + [key] + more) == multiset(own + [key]) + multiset(derived + more)
  {
  }

  lemma {:induction false} DistinctIffNoRepeat(keys: seq<Key>)
    ensures Distinct(keys) <==> forall k :: multiset(keys)[k] <= 1
  {
    if keys != [] {
      var front, last := keys[..|keys| - 1], keys[|keys| - 1];
      assert keys == front + [last];
      DistinctIffNoRepeat(front);
      if last in front {
        var i :| 0 <= i < |front| && front[i] == last;
        assert keys[i] == keys[|keys| - 1] && multiset(keys)[last] == multiset(front)[last] + 1 > 1;
      } else {
        assert multiset(front)[last] == 0;
        assert forall k :: multiset(keys)[k] == multiset(front)[k] + if k == last then 1 else 0;
      }
    }
  }

  /** No two questions of the expanded form share a key. */
  lemma ExpandedKeysAreDistinct(t: Template)
    requires Expands(t) && Distinct(FieldKeys(t.fields))
    ensures Distinct(FieldKeys(ExpandedFields(t.definitions, t.fields)))
  {
    var own, derived := FieldKeys(t.fields), DerivedKeys(t.definitions, t.fields);
    ExpandedKeys(t.definitions, t.fields);
    DistinctIffNoRepeat(own);
    DistinctIffNoRepeat(derived);
    DistinctIffNoRepeat(FieldKeys(ExpandedFields(t.definitions, t.fields)));
    forall k ensures multiset(own)[k] + multiset(derived)[k] <= 1 {
      if k in own { assert k !in derived; }
    }
  }

  // ---- The authoring read (src/services/admin/controllers/form-template.ts) ----

  predicate HasDoubleUnderscore(key: Key) {
    exists i :: 0 <= i < |key| && "__" <= key[i..]
  }

  /** Inside a use, and named like what a structure brings. */
  predicate Derived(uses: set<Key>, f: Field) {
    f.parentFieldKey.Some? && f.parentFieldKey.value in uses && HasDoubleUnderscore(f.fieldKey)
  }

  function Stripped(uses: set<Key>, fields: seq<Field>): seq<Field> {
    if fields == [] then []
    else
      var f := fields[|fields| - 1];
      Stripped(uses, fields[..|fields| - 1]) + if Derived(uses, f) then [] else [f]
  }

  function OptionsOf(keys: set<Key>, options: seq<FieldOption>): seq<FieldOption> {
    if options == [] then []
    else
      var o := options[|options| - 1];
      OptionsOf(keys, options[..|options| - 1]) + if o.fieldKey in keys then [o] else []
  }

  function UseKeys(fields: seq<Field>): set<Key> { set f | f in fields && IsUse(f) :: f.fieldKey }

  /** The stored form, back as its author wrote it: derived rows dropped, and every option whose row was. */
  function TemplateOf(stored: Template): Template {
    var kept := Stripped(UseKeys(stored.fields), stored.fields);
    stored.(fields := kept, options := OptionsOf(ToSet(FieldKeys(kept)), stored.options))
  }

  lemma {:induction false} StrippedOfBoth(uses: set<Key>, a: seq<Field>, b: seq<Field>)
    ensures Stripped(uses, a + b) == Stripped(uses, a) + Stripped(uses, b)
  {
    if b == [] {
      assert a + b == a;
    } else {
      assert (a + b)[..|a + b| - 1] == a + b[..|b| - 1];
      StrippedOfBoth(uses, a, b[..|b| - 1]);
    }
  }

  lemma {:induction false} MemberRowsAreStripped(uses: set<Key>, use: Field, members: seq<Member>)
    requires use.fieldKey in uses
    ensures Stripped(uses, MemberRows(use, members)) == []
  {
    if members != [] {
      var rows := MemberRows(use, members);
      assert rows[..|rows| - 1] == MemberRows(use, members[..|members| - 1]);
      var key := rows[|rows| - 1].fieldKey;
      assert "__" <= key[|use.fieldKey|..];
      MemberRowsAreStripped(uses, use, members[..|members| - 1]);
    }
  }

  /** Not inside any use, and counted among the uses if it is one. */
  predicate Authored(uses: set<Key>, f: Field) {
    (f.parentFieldKey.Some? ==> f.parentFieldKey.value !in uses) && (IsUse(f) ==> f.fieldKey in uses)
  }

  lemma StrippedOne(definitions: seq<Definition>, f: Field, uses: set<Key>)
    requires Authored(uses, f)
    ensures Stripped(uses, [f] + MemberRows(f, MembersOf(definitions, f))) == [f]
  {
    var rows := MemberRows(f, MembersOf(definitions, f));
    StrippedOfBoth(uses, [f], rows);
    assert [f][..0] == [] && Stripped(uses, [f]) == [f];
    if IsUse(f) {
      MemberRowsAreStripped(uses, f, MembersOf(definitions, f));
    } else {
      assert rows == [];
    }
  }

  lemma StrippedOneMore(definitions: seq<Definition>, before: seq<Field>, f: Field, uses: set<Key>)
    requires Authored(uses, f)
    ensures Stripped(uses, before + [f] + MemberRows(f, MembersOf(definitions, f))) == Stripped(uses, before) + [f]
  {
    var rows := MemberRows(f, MembersOf(definitions, f));
    StrippedOne(definitions, f, uses);
    StrippedOfBoth(uses, before, [f] + rows);
    assert before + [f] + rows == before + ([f] + rows);
  }

  lemma {:induction false} StrippedExpansion(definitions: seq<Definition>, fields: seq<Field>, uses: set<Key>)
    requires forall i :: 0 <= i < |fields| ==> Authored(uses, fields[i])
    ensures Stripped(uses, ExpandedFields(definitions, fields)) == fields
  {
    if fields != [] {
      var front, f := fields[..|fields| - 1], fields[|fields| - 1];
      StrippedExpansion(definitions, front, uses);
      StrippedOneMore(definitions, ExpandedFields(definitions, front), f, uses);
      assert fields == front + [f];
    }
  }

  lemma {:induction false} ExpansionAddsNoUses(definitions: seq<Definition>, fields: seq<Field>)
    ensures UseKeys(ExpandedFields(definitions, fields)) == UseKeys(fields)
  {
    if fields != [] {
      var front, f := fields[..|fields| - 1], fields[|fields| - 1];
      ExpansionAddsNoUses(definitions, front);
      var rows := MemberRows(f, MembersOf(definitions, f));
      assert forall r :: r in rows ==> !IsUse(r);
      UsesOfBoth(ExpandedFields(definitions, front), [f]);
      UsesOfBoth(ExpandedFields(definitions, front) + [f], rows);
      UsesOfBoth(front, [f]);
      assert fields == front + [f] && UseKeys(rows) == {};
    }
  }

  lemma UsesOfBoth(a: seq<Field>, b: seq<Field>)
    ensures UseKeys(a + b) == UseKeys(a) + UseKeys(b)
  {
  }

  lemma {:induction false} OptionsOfBoth(keys: set<Key>, a: seq<FieldOption>, b: seq<FieldOption>)
    ensures OptionsOf(keys, a + b) == OptionsOf(keys, a) + OptionsOf(keys, b)
  {
    if b == [] {
      assert a + b == a;
    } else {
      assert (a + b)[..|a + b| - 1] == a + b[..|b| - 1];
      OptionsOfBoth(keys, a, b[..|b| - 1]);
    }
  }

  lemma {:induction false} AllOptionsAreKeptIff(keys: set<Key>, options: seq<FieldOption>)
    ensures |OptionsOf(keys, options)| <= |options|
    ensures OptionsOf(keys, options) == options <==> forall o :: o in options ==> o.fieldKey in keys
  {
    if options != [] {
      var front, o := options[..|options| - 1], options[|options| - 1];
      AllOptionsAreKeptIff(keys, front);
      assert options == front + [o];
    }
  }

  lemma {:induction false} NoOptionIsKept(keys: set<Key>, options: seq<FieldOption>)
    requires forall o :: o in options ==> o.fieldKey !in keys
    ensures OptionsOf(keys, options) == []
  {
    if options != [] {
      NoOptionIsKept(keys, options[..|options| - 1]);
    }
  }

  lemma {:induction false} MemberOptionKeys(use: Field, members: seq<Member>, o: FieldOption)
    requires o in AllMemberOptions(use, members)
    ensures o.fieldKey in QualifiedKeys(use, members)
  {
    var front, m := members[..|members| - 1], members[|members| - 1];
    assert QualifiedKeys(use, members) == QualifiedKeys(use, front) + [Qualified(use.fieldKey, m.memberKey)];
    if o in AllMemberOptions(use, front) {
      MemberOptionKeys(use, front, o);
    }
  }

  lemma {:induction false} DerivedOptionKeys(definitions: seq<Definition>, fields: seq<Field>, o: FieldOption)
    requires o in DerivedOptions(definitions, fields)
    ensures o.fieldKey in DerivedKeys(definitions, fields)
  {
    var front, f := fields[..|fields| - 1], fields[|fields| - 1];
    if o in DerivedOptions(definitions, front) {
      DerivedOptionKeys(definitions, front, o);
    } else {
      MemberOptionKeys(f, MembersOf(definitions, f), o);
    }
  }

  /** Reading keeps an authored option exactly when it is of an authored question, and no derived one. */
  lemma OptionsAfterReading(t: Template)
    requires FreshKeys(FieldKeys(t.fields), DerivedKeys(t.definitions, t.fields))
    ensures var keys := ToSet(FieldKeys(t.fields));
      OptionsOf(keys, t.options + DerivedOptions(t.definitions, t.fields)) == OptionsOf(keys, t.options)
  {
    var keys, derived := ToSet(FieldKeys(t.fields)), DerivedOptions(t.definitions, t.fields);
    OptionsOfBoth(keys, t.options, derived);
    forall o | o in derived ensures o.fieldKey !in keys {
      DerivedOptionKeys(t.definitions, t.fields, o);
    }
    NoOptionIsKept(keys, derived);
  }

  lemma {:induction false} NoStructuresNoKeys(fields: seq<Field>)
    ensures DerivedKeys([], fields) == []
  {
    if fields != [] {
      NoStructuresNoKeys(fields[..|fields| - 1]);
      NoMembersNoRows(fields[|fields| - 1]);
    }
  }

  lemma FieldsAfterReading(t: Template)
    requires SoundUses(t)
    ensures Stripped(UseKeys(t.fields), ExpandedFields(t.definitions, t.fields)) == t.fields
  {
    forall i | 0 <= i < |t.fields| ensures Authored(UseKeys(t.fields), t.fields[i]) {
    }
    StrippedExpansion(t.definitions, t.fields, UseKeys(t.fields));
  }

  /**
   * Reading back an expanded form gives the questions as they were authored, and the whole form as it was
   * authored exactly when every option of it was of one of its questions: so an edit cannot expand it twice.
   */
  lemma ReadingUndoesExpansion(t: Template)
    requires Untouched(t) || Expands(t)
    ensures TemplateOf(Expanded(t)).fields == t.fields
    ensures TemplateOf(Expanded(t)) == t <==> forall o :: o in t.options ==> o.fieldKey in FieldKeys(t.fields)
  {
    if Untouched(t) {
      UsesAreTheUses(t.fields);
      NoStructuresNoKeys(t.fields);
    }
    ExpansionAddsNoUses(t.definitions, t.fields);
    FieldsAfterReading(t);
    OptionsAfterReading(t);
    AllOptionsAreKeptIff(ToSet(FieldKeys(t.fields)), t.options);
  }

  // ---- What a derived row is ----

  /** A row a use brings for a member: named after both, in the use's stage and under it, and otherwise the member's own. */
  lemma MemberRowIsTheMember(use: Field, members: seq<Member>, i: nat)
    requires i < |members|
    ensures |MemberRows(use, members)| == |members|
    ensures var row, m := MemberRows(use, members)[i], members[i];
      && row.fieldKey == use.fieldKey + "__" + m.memberKey && row.stageKey == use.stageKey && row.parentFieldKey == Some(use.fieldKey)
      && row.fieldType == m.fieldType && row.role == m.role && row.shape == m.shape && !IsUse(row)
  {
  }

  /** The options under a derived row's key are its member's, in order, and of its type. */
  lemma MemberOptionsAreTheMembers(use: Field, members: seq<Member>, i: nat)
    requires Distinct(MemberKeys(members)) && i < |members|
    ensures var key := use.fieldKey + "__" + members[i].memberKey;
      var kept := OptionsOf({key}, AllMemberOptions(use, members));
      && |kept| == |members[i].options|
      && forall n :: 0 <= n < |kept| ==>
           kept[n] == FieldOption(key, members[i].fieldType, members[i].options[n])
  {
    OptionsOfOneMember(use, members, i);
  }

  lemma {:induction false} OptionsOfOneMember(use: Field, members: seq<Member>, i: nat)
    requires Distinct(MemberKeys(members)) && i < |members|
    ensures OptionsOf({Qualified(use.fieldKey, members[i].memberKey)}, AllMemberOptions(use, members)) == MemberOptions(use, members[i])
  {
    var keys := {Qualified(use.fieldKey, members[i].memberKey)};
    var front, m := members[..|members| - 1], members[|members| - 1];
    OptionsOfBoth(keys, AllMemberOptions(use, front), MemberOptions(use, m));
    assert MemberKeys(front) == MemberKeys(members)[..|front|];
    if i < |front| {
      OptionsOfOneMember(use, front, i);
      KeysApart(use, members, i, |front|);
      NoOptionIsKept(keys, MemberOptions(use, m));
    } else {
      forall o | o in AllMemberOptions(use, front) ensures o.fieldKey !in keys {
        MemberOptionKeys(use, front, o);
        var k :| 0 <= k < |front| && QualifiedKeys(use, front)[k] == o.fieldKey;
        KeysApart(use, members, k, |front|);
      }
      NoOptionIsKept(keys, AllMemberOptions(use, front));
      AllOptionsAreKeptIff(keys, MemberOptions(use, m));
    }
  }

  lemma KeysApart(use: Field, members: seq<Member>, i: nat, j: nat)
    requires Distinct(MemberKeys(members)) && i < j < |members|
    ensures Qualified(use.fieldKey, members[i].memberKey) != Qualified(use.fieldKey, members[j].memberKey)
  {
    OtherKey(use, members[i].memberKey, members[j].memberKey);
    assert MemberKeys(members)[i] != MemberKeys(members)[j];
  }

  lemma OtherKey(use: Field, a: Key, b: Key)
    ensures Qualified(use.fieldKey, a) == Qualified(use.fieldKey, b) <==> a == b
  {
    var n := |use.fieldKey| + 2;
    assert Qualified(use.fieldKey, a)[n..] == a && Qualified(use.fieldKey, b)[n..] == b;
  }

  /** Where keys differ, the structure found under one is the one that has it. */
  lemma {:induction false} NamedIsTheOneWithTheKey(definitions: seq<Definition>, key: Key, d: Definition)
    requires Distinct(DefinitionKeys(definitions))
    ensures Named(definitions, key) == Some(d) <==> d in definitions && d.definitionKey == key
  {
    if definitions != [] {
      var front, last := definitions[..|definitions| - 1], definitions[|definitions| - 1];
      assert DefinitionKeys(front) == DefinitionKeys(definitions)[..|front|];
      assert definitions == front + [last];
      NamedIsTheOneWithTheKey(front, key, d);
      if d in front {
        var k :| 0 <= k < |front| && front[k] == d;
        assert DefinitionKeys(definitions)[k] != DefinitionKeys(definitions)[|front|];
      }
    }
  }

  /** A key, one character at a time: a capital first, then at least one more of capitals, digits and `_`, up to 64 in all. */
  lemma KeysGrowByOne(a: char, b: char, k: Key, c: char)
    ensures !IsKey("") && !IsKey([a])
    ensures IsKey([a, b]) <==> 'A' <= a <= 'Z' && ('A' <= b <= 'Z' || '0' <= b <= '9' || b == '_')
    ensures |k| >= 2 ==> (IsKey(k + [c]) <==> IsKey(k) && |k| < 64 && ('A' <= c <= 'Z' || '0' <= c <= '9' || c == '_'))
  {
    if |k| >= 2 {
      assert forall i :: 0 <= i < |k| ==> (k + [c])[i] == k[i];
      assert (k + [c])[|k|] == c;
    }
    assert IsKey([a, b]) ==> 'A' <= [a, b][1] <= 'Z' || '0' <= [a, b][1] <= '9' || [a, b][1] == '_';
  }

  /** A derived key that is short enough is a key like any other. */
  lemma DerivedKeyIsAKey(use: Key, member: Key)
    requires IsKey(use) && IsKey(member)
    ensures IsKey(Qualified(use, member)) <==> |use| + |member| <= 62
  {
    var key := Qualified(use, member);
    forall i | 1 <= i < |key| ensures 'A' <= key[i] <= 'Z' || '0' <= key[i] <= '9' || key[i] == '_' {
      if i < |use| {
        assert key[i] == use[i];
      } else if i >= |use| + 2 {
        assert key[i] == member[i - |use| - 2];
      }
    }
  }

  /** At `at` stands `f`, and directly after it exactly `rows`. */
  ghost predicate Followed(expanded: seq<Field>, at: nat, f: Field, rows: seq<Field>) {
    at + 1 + |rows| <= |expanded| && expanded[at] == f && expanded[at + 1..at + 1 + |rows|] == rows
  }

  lemma FollowedStays(shorter: seq<Field>, longer: seq<Field>, at: nat, f: Field, rows: seq<Field>)
    requires Followed(shorter, at, f, rows) && shorter <= longer
    ensures Followed(longer, at, f, rows)
  {
    assert longer[..|shorter|] == shorter;
    assert longer[at + 1..at + 1 + |rows|] == shorter[at + 1..at + 1 + |rows|];
  }

  /** Each use is followed at once by exactly its structure's members, in order, in its stage and under it. */
  lemma {:induction false} MembersFollowTheirUse(definitions: seq<Definition>, fields: seq<Field>, i: nat)
    requires i < |fields|
    ensures Followed(
      ExpandedFields(definitions, fields), |ExpandedFields(definitions, fields[..i])|,
      fields[i], MemberRows(fields[i], MembersOf(definitions, fields[i])))
  {
    if i < |fields| - 1 {
      var front := fields[..|fields| - 1];
      assert front[..i] == fields[..i];
      MembersFollowTheirUse(definitions, front, i);
      FollowedStays(
        ExpandedFields(definitions, front), ExpandedFields(definitions, fields), |ExpandedFields(definitions, fields[..i])|,
        fields[i], MemberRows(fields[i], MembersOf(definitions, fields[i])));
    }
  }
}
