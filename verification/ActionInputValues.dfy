/**
 * Which values an action can be taken with (src/services/pipeline/inputs.ts), said type by type and apart
 * from how the form engine reads them (src/services/application/form/coerce.ts, rules.ts and engine.ts).
 */
module ActionInputValues {
  import opened Common
  import opened Graphs
  import opened PipelineDefinitions
  import opened ActionInputs
  import CalendarMonths

  predicate Within(low: Option<int>, n: int, high: Option<int>) {
    (low.Some? ==> n >= low.value) && (high.Some? ==> n <= high.value)
  }

  predicate Blank(v: Value) { v == Null || v == Text("") || v == Choices([]) }

  // ---- One value, by its input's type ----

  /** The text is how a real date is written: of a year from 100 to 9999, at midnight. */
  predicate Writes(text: string, d: CalendarMonths.Date) {
    d.Valid() && d.time == 0 && 100 <= d.year <= 9999 && CalendarMonths.Rendered(d) == text
  }

  /** The midnight at or before a moment. */
  predicate LastMidnight(midnight: int, now: int) {
    midnight % 86_400_000 == 0 && midnight <= now < midnight + 86_400_000
  }

  /** A real date, after nothing it may not be after and before nothing it may not be before. */
  ghost predicate ProperDate(b: Bounds, text: string, now: int, d: CalendarMonths.Date) {
    && Writes(text, d)
    && (b.relative == Some(NotFuture) ==> d.GetTime() <= now)
    && (b.relative == Some(NotPast) ==> forall midnight :: LastMidnight(midnight, now) ==> midnight <= d.GetTime())
    && (forall first :: b.minDate.Some? && Writes(b.minDate.value, first) ==> first.GetTime() <= d.GetTime())
    && (forall last :: b.maxDate.Some? && Writes(b.maxDate.value, last) ==> d.GetTime() <= last.GetTime())
  }

  /** Where an option stands: its last place, should the options repeat it. */
  function PlaceIn(options: seq<Key>, o: Key): (place: nat)
    requires o in options
    ensures place < |options| && options[place] == o && o !in options[place + 1..]
  {
    if o in options[1..] then assert options[1..][PlaceIn(options[1..], o) + 1..] == options[PlaceIn(options[1..], o) + 2..]; 1 + PlaceIn(options[1..], o)
    else 0
  }

  /** Offered options, in the order they are offered, none of them twice. */
  ghost predicate OfferedInOrder(options: seq<Key>, chosen: seq<string>) {
    && (forall o :: o in chosen ==> o in options)
    && forall a, b :: 0 <= a < b < |chosen| ==> PlaceIn(options, chosen[a]) < PlaceIn(options, chosen[b])
  }

  /** What typed text is taken as: nothing, or the text once cleaned. */
  ghost predicate ProperText(host: Host, i: Input, given: Value, v: Value) {
    if given.Null? then v == Null
    else given.Text? && v == (if host.clean(i.inputType, given.text) == "" then Null else Text(host.clean(i.inputType, given.text)))
  }

  /** A value the input can have when `given` is sent for it at the moment `now`. */
  ghost predicate Proper(host: Host, i: Input, given: Value, v: Value, now: int)
    requires !i.inputType.Statement?
  {
    var b := i.bounds;
    match i.inputType
    case ShortText => ProperText(host, i, given, v) && (v.Text? ==> Within(b.minLength, |v.text|, b.maxLength))
    case LongText => ProperText(host, i, given, v) && (v.Text? ==> Within(b.minLength, |v.text|, b.maxLength))
    case Date => ProperText(host, i, given, v) && (v.Text? ==> exists d :: ProperDate(b, v.text, now, d))
    case Integer =>
      v == given && (v.Null? ||
        (v.Number? && -9_007_199_254_740_991 <= v.number <= 9_007_199_254_740_991 && Within(b.minValue, v.number, b.maxValue)))
    case Money =>
      v == given && (v.Null? || (v.Number? && 0 <= v.number <= 9_007_199_254_740_991 && Within(b.minValue, v.number, b.maxValue)))
    case Boolean => v == given && (v.Null? || v.Truth?)
    case SingleChoice => ProperText(host, i, given, v) && (v.Text? ==> v.text in i.options)
    case MultiChoice =>
      && v.Choices? && OfferedInOrder(i.options, v.choices) && Within(None, |v.choices|, b.maxLength)
      && if given.Null? then v.choices == []
         else given.Choices? && Distinct(given.choices) && ToSet(v.choices) == ToSet(given.choices)
  }

  // ---- The engine reads exactly those ----

  lemma LastMidnightIsOne(midnight: int, now: int)
    ensures LastMidnight(midnight, now) <==> midnight == StartOfDay(now)
  {
    var day := CalendarMonths.MS_PER_DAY;
    if LastMidnight(midnight, now) {
      var days := midnight / day;
      assert now == days * day + (now - midnight) && now / day == days;
    }
  }

  lemma DateIsRead(text: string, d: CalendarMonths.Date)
    ensures CalendarMonths.ParseDateOnly(text) == Some(d) <==> Writes(text, d)
  {
    CalendarMonths.ParsesExactlyRealDates(text, d);
  }

  lemma BoundIsRead(text: Option<string>, time: int)
    ensures AtLeast(DateBound(text), time) <==> forall d :: text.Some? && Writes(text.value, d) ==> d.GetTime() <= time
    ensures AtMost(DateBound(text), time) <==> forall d :: text.Some? && Writes(text.value, d) ==> time <= d.GetTime()
  {
    if text.Some? {
      forall d ensures CalendarMonths.ParseDateOnly(text.value) == Some(d) <==> Writes(text.value, d) { DateIsRead(text.value, d); }
    }
  }

  lemma DateIsProper(i: Input, text: string, now: int)
    requires i.inputType.Date? && CalendarMonths.ParseDateOnly(text).Some?
    ensures WithinRules(i, Text(text), now) <==> ProperDate(i.bounds, text, now, CalendarMonths.ParseDateOnly(text).value)
  {
    var d := CalendarMonths.ParseDateOnly(text).value;
    DateIsRead(text, d);
    BoundIsRead(i.bounds.minDate, d.GetTime());
    BoundIsRead(i.bounds.maxDate, d.GetTime());
    forall midnight ensures LastMidnight(midnight, now) <==> midnight == StartOfDay(now) { LastMidnightIsOne(midnight, now); }
    assert LastMidnight(StartOfDay(now), now);
  }

  lemma DatesAreProper(host: Host, i: Input, given: Value, v: Value, now: int)
    requires i.inputType.Date?
    ensures Coerced(host, i, given) == Some(v) && WithinRules(i, v, now) <==> Proper(host, i, given, v, now)
  {
    if v.Text? {
      forall d ensures CalendarMonths.ParseDateOnly(v.text) == Some(d) <==> Writes(v.text, d) { DateIsRead(v.text, d); }
      if CalendarMonths.ParseDateOnly(v.text).Some? { DateIsProper(i, v.text, now); }
    }
  }

  lemma {:induction false} KeptInOrder(options: seq<Key>, chosen: seq<string>)
    ensures OfferedInOrder(options, InOptionOrder(options, chosen))
    ensures forall o :: o in InOptionOrder(options, chosen) <==> o in options && o in chosen
  {
    if options != [] {
      var rest := InOptionOrder(options[1..], chosen);
      KeptInOrder(options[1..], chosen);
      assert forall o :: o in options[1..] ==> PlaceIn(options, o) == 1 + PlaceIn(options[1..], o);
      assert forall o :: o in options <==> o == options[0] || o in options[1..];
    }
  }

  lemma LastIsHighest(options: seq<Key>, p: seq<string>, o: string)
    requires OfferedInOrder(options, p) && p != [] && o in p
    ensures PlaceIn(options, o) <= PlaceIn(options, p[|p| - 1])
  {
    var k :| 0 <= k < |p| && p[k] == o;
  }

  lemma SameLast(options: seq<Key>, p: seq<string>, q: seq<string>)
    requires OfferedInOrder(options, p) && OfferedInOrder(options, q) && forall o :: o in p <==> o in q
    requires p != []
    ensures q != [] && p[|p| - 1] == q[|q| - 1]
  {
    assert p[0] in q;
    LastIsHighest(options, p, q[|q| - 1]);
    LastIsHighest(options, q, p[|p| - 1]);
    SamePlace(options, p[|p| - 1], q[|q| - 1]);
  }

  lemma SamePlace(options: seq<Key>, a: Key, b: Key)
    requires a in options && b in options && PlaceIn(options, a) == PlaceIn(options, b)
    ensures a == b
  {
  }

  lemma {:induction false} OneOrder(options: seq<Key>, p: seq<string>, q: seq<string>)
    requires OfferedInOrder(options, p) && OfferedInOrder(options, q) && forall o :: o in p <==> o in q
    ensures p == q
  {
    if p == [] {
      if q != [] { SameLast(options, q, p); }
    } else {
      SameLast(options, p, q);
      FrontLosesTheLast(options, p);
      FrontLosesTheLast(options, q);
      var front, other := p[..|p| - 1], q[..|q| - 1];
      forall o ensures o in front <==> o in other {
        assert (o in front <==> o in p && o != p[|p| - 1]) && (o in other <==> o in q && o != q[|q| - 1]);
      }
      OneOrder(options, front, other);
      assert p == front + [p[|p| - 1]] && q == other + [q[|q| - 1]];
    }
  }

  lemma FrontLosesTheLast(options: seq<Key>, p: seq<string>)
    requires OfferedInOrder(options, p) && p != []
    ensures OfferedInOrder(options, p[..|p| - 1])
    ensures forall o :: o in p[..|p| - 1] <==> o in p && o != p[|p| - 1]
  {
    var front := p[..|p| - 1];
    assert p == front + [p[|p| - 1]];
    assert forall k :: 0 <= k < |front| ==> p[k] != p[|p| - 1];
  }

  lemma ChoicesAreProper(host: Host, i: Input, given: Value, v: Value, now: int)
    requires i.inputType.MultiChoice?
    ensures Coerced(host, i, given) == Some(v) && WithinRules(i, v, now) <==> Proper(host, i, given, v, now)
  {
    if given.Choices? {
      var kept := InOptionOrder(i.options, given.choices);
      KeptInOrder(i.options, given.choices);
      if Proper(host, i, given, v, now) {
        assert forall o :: (o in v.choices <==> o in ToSet(v.choices)) && (o in given.choices <==> o in ToSet(given.choices));
        OneOrder(i.options, v.choices, kept);
      }
      if Coerced(host, i, given) == Some(v) {
        assert ToSet(kept) == ToSet(given.choices);
      }
    }
  }

  /** What the engine takes is, for every type, exactly what it should. */
  lemma ReadingIsProper(host: Host, i: Input, given: Value, v: Value, now: int)
    requires !i.inputType.Statement?
    ensures Coerced(host, i, given) == Some(v) && WithinRules(i, v, now) <==> Proper(host, i, given, v, now)
  {
    if i.inputType.Date? {
      DatesAreProper(host, i, given, v, now);
    } else if i.inputType.MultiChoice? {
      ChoicesAreProper(host, i, given, v, now);
    }
  }

  // ---- What a form is ----

  /** Some input of this key takes a value. */
  predicate TakesAValue(inputs: seq<Input>, key: Key) {
    exists s :: s in inputs && s.key == key && !s.inputType.Statement?
  }

  /** Every condition of every input reads some input that takes a value. */
  predicate EachReadsAValue(inputs: seq<Input>) {
    forall i, c :: i in inputs && c in i.visibleWhen ==> TakesAValue(inputs, c.key)
  }

  /** The inputs can be numbered so that each comes after all that its conditions read. */
  ghost predicate ReadsEarlier(inputs: seq<Input>, rank: map<Key, nat>) {
    && (forall i :: i in inputs ==> i.key in rank)
    && forall i, c :: i in inputs && c in i.visibleWhen && c.key in rank ==> rank[c.key] < rank[i.key]
  }

  lemma ReadsValues(inputs: seq<Input>)
    requires Distinct(InputKeys(inputs))
    ensures SourcesHaveValues(inputs) <==> EachReadsAValue(inputs)
  {
    forall key ensures HasValue(inputs, key) <==> TakesAValue(inputs, key) {
      FoundInput(inputs, key);
      if s :| s in inputs && s.key == key && !s.inputType.Statement? { FindsEachInput(inputs, s); }
    }
    if SourcesHaveValues(inputs) {
      forall i, c | i in inputs && c in i.visibleWhen ensures TakesAValue(inputs, c.key) {
        assert c.key in SourceKeys(i);
      }
    }
    if EachReadsAValue(inputs) {
      forall i, k | i in inputs && k in SourceKeys(i) ensures HasValue(inputs, k) {
        var c :| c in i.visibleWhen && c.key == k;
      }
    }
  }

  lemma NumberedIsReadingEarlier(inputs: seq<Input>, rank: map<Key, nat>)
    requires Distinct(InputKeys(inputs)) && EachReadsAValue(inputs) && rank.Keys == InputGraph(inputs).Keys
    ensures Numbering(InputGraph(inputs), rank) <==> ReadsEarlier(inputs, rank)
  {
    var g := InputGraph(inputs);
    InputGraphIsTheGraph(inputs);
    forall i, c | i in inputs && c in i.visibleWhen ensures Edge(g, i.key, c.key) {
      assert c.key in SourceKeys(i);
      var s :| s in inputs && s.key == c.key;
    }
    forall a, b | Edge(g, a, b) ensures exists i, c :: i in inputs && c in i.visibleWhen && i.key == a && c.key == b {
      var i :| i in inputs && i.key == a;
      assert b in SourceKeys(i);
      var c :| c in i.visibleWhen && c.key == b;
    }
  }

  /** Inputs form a form exactly when no two share a key, each condition reads one that takes a value, and none goes round in a circle. */
  lemma WhatAFormIs(action: Action)
    ensures FormResolves(action) <==>
      Distinct(InputKeys(action.inputs)) && EachReadsAValue(action.inputs) && exists rank :: ReadsEarlier(action.inputs, rank)
  {
    var inputs := action.inputs;
    if Distinct(InputKeys(inputs)) && EachReadsAValue(inputs) {
      var g := InputGraph(inputs);
      ReadsValues(inputs);
      AcyclicIffNumbered(g);
      InputGraphIsTheGraph(inputs);
      if rank: map<Key, nat> :| Numbering(g, rank) {
        NumberedIsReadingEarlier(inputs, rank);
      }
      if rank: map<Key, nat> :| ReadsEarlier(inputs, rank) {
        var only := map k | k in g :: if k in rank then rank[k] else 0;
        assert ReadsEarlier(inputs, only);
        NumberedIsReadingEarlier(inputs, only);
      }
    } else if Distinct(InputKeys(inputs)) {
      ReadsValues(inputs);
    }
  }

  // ---- All of them ----

  /** The value is proper for what was sent, where an input that nothing was sent for was left empty. */
  ghost predicate ProperFor(host: Host, i: Input, submitted: Values, v: Value, now: int)
    requires !i.inputType.Statement?
  {
    Proper(host, i, if i.key in submitted then submitted[i.key] else Null, v, now)
  }

  /** What an action is taken with: every answerable input's value proper, what is shown complete, and what is hidden blank. */
  ghost predicate Fitting(host: Host, action: Action, submitted: Values, now: int, values: Values, shown: set<Key>) {
    && (forall i :: i in action.inputs && !i.inputType.Statement? ==> i.key in values && ProperFor(host, i, submitted, values[i.key], now))
    && VisibleSet(host, action.inputs, values, shown)
    && (forall i :: i in action.inputs && !i.inputType.Statement? && i.key in values && i.key !in shown ==> Blank(values[i.key]))
    && forall i :: i in action.inputs && !i.inputType.Statement? && i.key in values && i.key in shown ==>
         && (i.required ==> !Blank(values[i.key]))
         && (i.inputType.MultiChoice? && values[i.key].Choices? ==> Within(i.bounds.minLength, |values[i.key].choices|, None))
  }

  /** The keys of the inputs that take a value. */
  function AskedKeys(inputs: seq<Input>): set<Key> { set i | i in inputs && !i.inputType.Statement? :: i.key }

  /**
   * An officer's inputs are taken, as these values, exactly when the inputs form a form, nothing was sent
   * that is not one of them, and the values fit, in at most 32 kibibytes.
   */
  lemma ValidatedIsFitting(host: Host, action: Action, submitted: Values, now: int, values: Values)
    ensures Validated(host, action, submitted, now, values) <==>
      && FormResolves(action) && submitted.Keys <= AskedKeys(action.inputs) && values.Keys == AskedKeys(action.inputs)
      && host.encodedBytes(values) <= 32_768
      && exists shown :: Fitting(host, action, submitted, now, values, shown)
  {
    forall i | i in action.inputs && !i.inputType.Statement? && i.key in values
      ensures Coerced(host, i, Given(submitted, i.key)) == Some(values[i.key]) && WithinRules(i, values[i.key], now)
        <==> Proper(host, i, Given(submitted, i.key), values[i.key], now)
    {
      ReadingIsProper(host, i, Given(submitted, i.key), values[i.key], now);
    }
    if Validated(host, action, submitted, now, values) {
      var shown :| VisibleSet(host, action.inputs, values, shown) && CompleteAsShown(action.inputs, values, shown);
      CompleteIsFilled(host, action, submitted, now, values, shown);
      assert Fitting(host, action, submitted, now, values, shown);
    }
    if values.Keys == AskedKeys(action.inputs) && exists shown :: Fitting(host, action, submitted, now, values, shown) {
      var shown :| Fitting(host, action, submitted, now, values, shown);
      CompleteIsFilled(host, action, submitted, now, values, shown);
      assert CompleteAsShown(action.inputs, values, shown);
    }
  }

  /** Only a multiple choice is a list. */
  lemma OnlyChoicesAreLists(host: Host, i: Input, given: Value, v: Value, now: int)
    requires !i.inputType.Statement? && Proper(host, i, given, v, now)
    ensures v.Choices? <==> i.inputType.MultiChoice?
  {
  }

  lemma CompleteIsFilled(host: Host, action: Action, submitted: Values, now: int, values: Values, shown: set<Key>)
    requires forall i :: i in action.inputs && !i.inputType.Statement? ==> i.key in values && ProperFor(host, i, submitted, values[i.key], now)
    ensures CompleteAsShown(action.inputs, values, shown) <==>
      && (forall i :: i in action.inputs && !i.inputType.Statement? && i.key in values && i.key !in shown ==> Blank(values[i.key]))
      && forall i :: i in action.inputs && !i.inputType.Statement? && i.key in values && i.key in shown ==>
           && (i.required ==> !Blank(values[i.key]))
           && (i.inputType.MultiChoice? && values[i.key].Choices? ==> Within(i.bounds.minLength, |values[i.key].choices|, None))
  {
    forall i | i in action.inputs && !i.inputType.Statement?
      ensures i.key in values && (values[i.key].Choices? <==> i.inputType.MultiChoice?)
    {
      OnlyChoicesAreLists(host, i, Given(submitted, i.key), values[i.key], now);
    }
  }

  // ---- When an input is shown ----

  /** Some condition of an input is of this group, and all that are compare. */
  ghost predicate GroupShows(host: Host, inputs: seq<Input>, values: Values, shown: set<Key>, i: Input, group: nat) {
    && (exists c :: c in i.visibleWhen && c.group == group)
    && forall c :: c in i.visibleWhen && c.group == group ==> Compares(host, inputs, values, shown, c)
  }

  /** An input is shown when it has no conditions, or when any one whole group of them compares. */
  lemma AnyWholeGroupShows(host: Host, inputs: seq<Input>, values: Values, shown: set<Key>, i: Input)
    ensures ShownWith(host, inputs, values, shown, i) <==>
      i.visibleWhen == [] || exists group :: GroupShows(host, inputs, values, shown, i, group)
  {
    forall n | 0 <= n < |i.visibleWhen|
      ensures GroupCompares(host, inputs, values, shown, i, n) <==> GroupShows(host, inputs, values, shown, i, i.visibleWhen[n].group)
    {
      assert i.visibleWhen[n] in i.visibleWhen;
    }
    if group :| GroupShows(host, inputs, values, shown, i, group) {
      var c :| c in i.visibleWhen && c.group == group;
      var n :| 0 <= n < |i.visibleWhen| && i.visibleWhen[n] == c;
    }
  }

  /** What is hidden reads as unanswered: of it only IS_ABSENT compares. What is shown reads as it is. */
  lemma HiddenReadsAsUnanswered(host: Host, inputs: seq<Input>, values: Values, shown: set<Key>, c: Condition)
    requires FindInput(inputs, c.key).Some?
    ensures c.key !in shown ==> (Compares(host, inputs, values, shown, c) <==> c.operator.IsAbsent?)
    ensures c.key in shown ==> (Compares(host, inputs, values, shown, c.(operator := IsPresent)) <==> c.key in values && !Blank(values[c.key]))
    ensures c.key in shown && c.key in values && values[c.key].Text? && values[c.key].text != "" && c.operator.Equals? ==>
      (Compares(host, inputs, values, shown, c) <==> c.value == Some(values[c.key].text))
  {
  }

  /** A date an action was taken with under NOT_FUTURE was not after the moment it was entered. */
  lemma DateIsNotAhead(host: Host, action: Action, submitted: Values, now: int, values: Values, i: Input) returns (d: CalendarMonths.Date)
    requires Validated(host, action, submitted, now, values) && i in action.inputs && i.inputType.Date?
    requires i.bounds.relative == Some(NotFuture) && i.key in values && !values[i.key].Null?
    ensures values[i.key].Text? && Writes(values[i.key].text, d) && d.GetTime() <= now
  {
    ReadingIsProper(host, i, Given(submitted, i.key), values[i.key], now);
    d :| ProperDate(i.bounds, values[i.key].text, now, d);
  }
}
