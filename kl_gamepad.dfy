/** The gamepad response listener: a declarative mapping from response labels
    to button and axis conditions is parsed once; during a response window the
    listener keeps button and axis state up to date from each batch of
    controller events, records trigger samples, and resolves the first label,
    in declaration order, whose conditions all hold. */
module KLGamepad {
  import opened Results

  /** SDL's identifiers of the two trigger axes, and the largest axis value. */
  const TriggerLeft: int := 4
  const TriggerRight: int := 5
  const TriggerMax: int := 32767

  // ---------------------------------------------------------------------
  // Name lookup

  /** The controller's capability catalog: SDL's name-to-identifier lookups,
      on already normalised names.  A name that is absent is one SDL answers
      with its INVALID identifier. */
  datatype Catalog = Catalog(axes: map<string, int>, buttons: map<string, int>)

  /** Errors raised while a mapping is parsed. */
  datatype ConfigError =
    | InvalidAxis(axisName: string)
    | InvalidButton(buttonName: string)
    | EmptyAxisItem

  /** The characters `[\s_-]` removes (ASCII whitespace, underscore, hyphen). */
  predicate Stripped(c: char)
  {
    c == ' ' || c == '\t' || c == '\n' || c == '\r' || c as int == 11 || c as int == 12
    || c == '_' || c == '-'
  }

  predicate Upper(c: char)
  {
    'A' <= c <= 'Z'
  }

  function Lower(c: char): (r: char)
    ensures !Upper(r)
    ensures Upper(c) ==> r as int == c as int + 32
    ensures !Upper(c) ==> r == c
  {
    if Upper(c) then (c as int + 32) as char else c
  }

  /** `re.sub(r"[\s_-]", "", name).lower()`: the stripped characters are
      dropped and the rest are lower-cased, in order. */
  function Normalize(s: string): (r: string)
    ensures |r| <= |s|
    ensures forall c :: c in r ==> !Stripped(c) && !Upper(c)
  {
    if s == [] then []
    else (if Stripped(s[0]) then [] else [Lower(s[0])]) + Normalize(s[1..])
  }

  /** Normalising twice changes nothing. */
  lemma {:induction false} NormalizeIdempotent(s: string)
    ensures Normalize(Normalize(s)) == Normalize(s)
  {
    if s != [] {
      NormalizeIdempotent(s[1..]);
      var head := if Stripped(s[0]) then [] else [Lower(s[0])];
      NormalizeAppend(head, Normalize(s[1..]));
      assert Normalize(head) == head;
    }
  }

  lemma {:induction false} NormalizeAppend(a: string, b: string)
    ensures Normalize(a + b) == Normalize(a) + Normalize(b)
  {
    if a == [] {
      assert a + b == b;
    } else {
      assert (a + b)[1..] == a[1..] + b;
      NormalizeAppend(a[1..], b);
    }
  }

  /** Lookup ignores case: an upper-case letter normalises like its
      lower-case form. */
  lemma NormalizeIgnoresCase(a: string, u: char, b: string)
    requires Upper(u)
    ensures Normalize(a + [u] + b) == Normalize(a + [Lower(u)] + b)
  {
    var l := Lower(u);
    NormalizeOne(u);
    NormalizeOne(l);
    assert Normalize([u]) == Normalize([l]);
    NormalizeAppend(a, [u]);
    NormalizeAppend(a, [l]);
    assert Normalize(a + [u]) == Normalize(a + [l]);
    NormalizeAppend(a + [u], b);
    NormalizeAppend(a + [l], b);
  }

  lemma NormalizeOne(c: char)
    ensures Normalize([c]) == if Stripped(c) then [] else [Lower(c)]
  {
    assert [c][1..] == [];
  }

  /** Lookup ignores separators: dropping a space, underscore or hyphen does
      not change the normalised name. */
  lemma NormalizeIgnoresSeparator(a: string, c: char, b: string)
    requires Stripped(c)
    ensures Normalize(a + [c] + b) == Normalize(a + b)
  {
    NormalizeAppend(a + [c], b);
    NormalizeAppend(a, [c]);
    NormalizeAppend(a, b);
  }

  /** `_get_axis`: the identifier the catalog gives the normalised name; an
      unknown name raises, quoting the name as the caller wrote it. */
  function GetAxis(cat: Catalog, nameRaw: string): (r: Result<int, ConfigError>)
    ensures r.Success? <==> Normalize(nameRaw) in cat.axes
    ensures r.Success? ==> r.value == cat.axes[Normalize(nameRaw)]
    ensures r.Failure? ==> r.error == InvalidAxis(nameRaw)
  {
    var name := Normalize(nameRaw);
    if name in cat.axes then Success(cat.axes[name]) else Failure(InvalidAxis(nameRaw))
  }

  /** `_get_button`: as `_get_axis`, on the button catalog. */
  function GetButton(cat: Catalog, nameRaw: string): (r: Result<int, ConfigError>)
    ensures r.Success? <==> Normalize(nameRaw) in cat.buttons
    ensures r.Success? ==> r.value == cat.buttons[Normalize(nameRaw)]
    ensures r.Failure? ==> r.error == InvalidButton(nameRaw)
  {
    var name := Normalize(nameRaw);
    if name in cat.buttons then Success(cat.buttons[name]) else Failure(InvalidButton(nameRaw))
  }

  /** Two spellings with the same normalised form find the same axis. */
  lemma LookupInsensitive(cat: Catalog, a: string, b: string)
    requires Normalize(a) == Normalize(b)
    ensures GetAxis(cat, a).Success? == GetAxis(cat, b).Success?
    ensures GetAxis(cat, a).Success? ==> GetAxis(cat, a).value == GetAxis(cat, b).value
    ensures GetButton(cat, a).Success? == GetButton(cat, b).Success?
    ensures GetButton(cat, a).Success? ==> GetButton(cat, a).value == GetButton(cat, b).value
  {
  }

  // ---------------------------------------------------------------------
  // Thresholds

  /** Python's `int(x)`: truncation toward zero. */
  function Truncate(x: real): (r: int)
    ensures x >= 0.0 ==> 0.0 <= x - r as real < 1.0
    ensures x < 0.0 ==> 0.0 <= r as real - x < 1.0
  {
    if x >= 0.0 then x.Floor else -((-x).Floor)
  }

  /** `int(threshold * 32767)`: a normalised threshold scaled to the native
      axis range. */
  function ScaleThreshold(t: real): (r: int)
    ensures -1.0 <= t <= 1.0 ==> -TriggerMax <= r <= TriggerMax
    ensures t >= 0.0 ==> r >= 0
    ensures t <= 0.0 ==> r <= 0
  {
    Truncate(t * TriggerMax as real)
  }

  // ---------------------------------------------------------------------
  // Mapping parser

  /** One element of a list mapping: a button name, or a dictionary of axis
      name to threshold of which only the first entry is read. */
  datatype Item = ButtonName(name: string) | AxisEntries(entries: seq<(string, real)>)

  /** The value a response label maps to: a single button name, a list of
      items, or a dictionary of axis name to threshold. */
  datatype MappingSpec =
    | Single(name: string)
    | ItemList(items: seq<Item>)
    | AxisDict(thresholds: seq<(string, real)>)

  /** The user's mapping, a dictionary from response label to specification. */
  type RawMap = seq<(string, MappingSpec)>

  /** An axis condition: holds when the axis is at or beyond the threshold on
      the threshold's side of zero. */
  datatype AxisCondition = AxisCondition(axis: int, threshold: int)

  /** The normalised conditions of one label. */
  datatype Conditions = Conditions(buttons: seq<int>, axes: seq<AxisCondition>)

  /** The parsed map, in the user mapping's label order. */
  type ParsedMap = seq<(string, Conditions)>

  /** A dictionary becomes one single-entry dictionary per key; a string
      becomes a one-element list. */
  function Items(spec: MappingSpec): (r: seq<Item>)
  {
    match spec
    case Single(name) => [ButtonName(name)]
    case ItemList(items) => items
    case AxisDict(ts) => seq(|ts|, k requires 0 <= k < |ts| => AxisEntries([ts[k]]))
  }

  /** The button names among the items, in order. */
  function ButtonNames(items: seq<Item>): (r: seq<string>)
  {
    if items == [] then []
    else (if items[0].ButtonName? then [items[0].name] else []) + ButtonNames(items[1..])
  }

  /** The axis entries the parser reads (the first of each dictionary), in
      order. */
  function AxisFirsts(items: seq<Item>): (r: seq<(string, real)>)
    requires forall k :: 0 <= k < |items| && items[k].AxisEntries? ==> items[k].entries != []
  {
    if items == [] then []
    else (if items[0].AxisEntries? then [items[0].entries[0]] else []) + AxisFirsts(items[1..])
  }

  /** An item the parser accepts: a known button, or a non-empty dictionary
      whose first key is a known axis. */
  predicate ItemValid(cat: Catalog, item: Item)
  {
    match item
    case ButtonName(name) => Normalize(name) in cat.buttons
    case AxisEntries(es) => es != [] && Normalize(es[0].0) in cat.axes
  }

  /** The error the parser raises on an invalid item. */
  function ItemError(cat: Catalog, item: Item): ConfigError
  {
    match item
    case ButtonName(name) => InvalidButton(name)
    case AxisEntries(es) => if es == [] then EmptyAxisItem else InvalidAxis(es[0].0)
  }

  /** The first invalid item is at position `k`. */
  predicate FirstInvalidAt(cat: Catalog, items: seq<Item>, k: int)
  {
    0 <= k < |items| && !ItemValid(cat, items[k])
    && forall k' :: 0 <= k' < k ==> ItemValid(cat, items[k'])
  }

  /** The loop body of `_parse_mappings` over the items of one label: it
      fails exactly when some item is invalid, with the error of the first
      invalid one.  `ParseItemsButtons` and `ParseItemsAxes` state what it
      builds otherwise. */
  function ParseItems(cat: Catalog, items: seq<Item>): (r: Result<Conditions, ConfigError>)
    ensures r.Success? <==> forall k :: 0 <= k < |items| ==> ItemValid(cat, items[k])
    ensures r.Failure? ==> exists k :: FirstInvalidAt(cat, items, k) && r.error == ItemError(cat, items[k])
  {
    if items == [] then Success(Conditions([], []))
    else if !ItemValid(cat, items[0]) then
      assert FirstInvalidAt(cat, items, 0);
      Failure(ItemError(cat, items[0]))
    else
      var rest := ParseItems(cat, items[1..]);
      if rest.Failure? then
        assert exists k :: FirstInvalidAt(cat, items, k) && rest.error == ItemError(cat, items[k]) by {
          var k :| FirstInvalidAt(cat, items[1..], k) && rest.error == ItemError(cat, items[1..][k]);
          assert items[1..][k] == items[k + 1];
          forall k' | 1 <= k' < k + 1 ensures ItemValid(cat, items[k']) {
            assert items[k'] == items[1..][k' - 1];
          }
          assert FirstInvalidAt(cat, items, k + 1);
        }
        Failure(rest.error)
      else
        match items[0]
        case ButtonName(name) =>
          Success(Conditions([cat.buttons[Normalize(name)]] + rest.value.buttons, rest.value.axes))
        case AxisEntries(es) =>
          var cond := AxisCondition(cat.axes[Normalize(es[0].0)], ScaleThreshold(es[0].1));
          Success(Conditions(rest.value.buttons, [cond] + rest.value.axes))
  }

  /** A successful parse reads every dictionary item's first entry. */
  lemma ParsedItemsNonEmpty(cat: Catalog, items: seq<Item>)
    requires ParseItems(cat, items).Success?
    ensures forall k :: 0 <= k < |items| && items[k].AxisEntries? ==> items[k].entries != []
  {
    assert forall k :: 0 <= k < |items| ==> ItemValid(cat, items[k]);
  }

  /** The buttons of a successful parse are the looked-up button names, in
      item order. */
  lemma {:induction false} ParseItemsButtons(cat: Catalog, items: seq<Item>)
    requires ParseItems(cat, items).Success?
    ensures |ParseItems(cat, items).value.buttons| == |ButtonNames(items)|
    ensures forall k :: 0 <= k < |ButtonNames(items)| ==>
      Normalize(ButtonNames(items)[k]) in cat.buttons
      && ParseItems(cat, items).value.buttons[k] == cat.buttons[Normalize(ButtonNames(items)[k])]
  {
    if items != [] {
      var tail := items[1..];
      assert ItemValid(cat, items[0]);
      ParseItemsButtons(cat, tail);
      var r := ParseItems(cat, items).value.buttons;
      var rt := ParseItems(cat, tail).value.buttons;
      var names, namesTail := ButtonNames(items), ButtonNames(tail);
      if items[0].ButtonName? {
        assert r == [cat.buttons[Normalize(items[0].name)]] + rt;
        assert names == [items[0].name] + namesTail;
        forall k | 1 <= k < |names|
          ensures Normalize(names[k]) in cat.buttons && r[k] == cat.buttons[Normalize(names[k])]
        {
          assert names[k] == namesTail[k - 1] && r[k] == rt[k - 1];
        }
      } else {
        assert r == rt && names == namesTail;
      }
    }
  }

  /** The conditions are the axis entries looked up and scaled, position by
      position. */
  predicate AxesFrom(cat: Catalog, conds: seq<AxisCondition>, firsts: seq<(string, real)>)
  {
    && |conds| == |firsts|
    && forall k :: 0 <= k < |firsts| ==>
      Normalize(firsts[k].0) in cat.axes
      && conds[k] == AxisCondition(cat.axes[Normalize(firsts[k].0)], ScaleThreshold(firsts[k].1))
  }

  /** One more known axis entry in front keeps the conditions in step. */
  lemma AxesFromCons(cat: Catalog, e: (string, real), conds: seq<AxisCondition>, firsts: seq<(string, real)>)
    requires Normalize(e.0) in cat.axes && AxesFrom(cat, conds, firsts)
    ensures AxesFrom(cat, [AxisCondition(cat.axes[Normalize(e.0)], ScaleThreshold(e.1))] + conds, [e] + firsts)
  {
    var c := [AxisCondition(cat.axes[Normalize(e.0)], ScaleThreshold(e.1))] + conds;
    var f := [e] + firsts;
    forall k | 1 <= k < |f|
      ensures Normalize(f[k].0) in cat.axes
        && c[k] == AxisCondition(cat.axes[Normalize(f[k].0)], ScaleThreshold(f[k].1))
    {
      assert f[k] == firsts[k - 1] && c[k] == conds[k - 1];
    }
  }

  /** The axes of a successful parse are the looked-up first dictionary
      entries with scaled thresholds, in item order. */
  lemma {:induction false} ParseItemsAxes(cat: Catalog, items: seq<Item>)
    requires ParseItems(cat, items).Success?
    requires forall k :: 0 <= k < |items| && items[k].AxisEntries? ==> items[k].entries != []
    ensures |ParseItems(cat, items).value.axes| == |AxisFirsts(items)|
    ensures forall k :: 0 <= k < |AxisFirsts(items)| ==>
      Normalize(AxisFirsts(items)[k].0) in cat.axes
      && ParseItems(cat, items).value.axes[k]
         == AxisCondition(cat.axes[Normalize(AxisFirsts(items)[k].0)], ScaleThreshold(AxisFirsts(items)[k].1))
  {
    ParseItemsAxesFrom(cat, items);
  }

  lemma {:induction false} ParseItemsAxesFrom(cat: Catalog, items: seq<Item>)
    requires ParseItems(cat, items).Success?
    requires forall k :: 0 <= k < |items| && items[k].AxisEntries? ==> items[k].entries != []
    ensures AxesFrom(cat, ParseItems(cat, items).value.axes, AxisFirsts(items))
  {
    if items != [] {
      var tail := items[1..];
      assert ItemValid(cat, items[0]);
      assert forall k :: 0 <= k < |tail| ==> tail[k] == items[k + 1];
      ParseItemsAxesFrom(cat, tail);
      var rt := ParseItems(cat, tail).value.axes;
      var firstsTail := AxisFirsts(tail);
      if items[0].AxisEntries? {
        AxesFromCons(cat, items[0].entries[0], rt, firstsTail);
      }
    }
  }

  /** The first label whose items do not parse is at position `i`. */
  predicate FirstFailingAt(cat: Catalog, raw: RawMap, i: int)
  {
    0 <= i < |raw| && ParseItems(cat, Items(raw[i].1)).Failure?
    && forall i' :: 0 <= i' < i ==> ParseItems(cat, Items(raw[i'].1)).Success?
  }

  /** `_parse_mappings`: one entry per label, in the same order, or the
      error of the first invalid item of the first label that has one. */
  function ParseMappings(cat: Catalog, raw: RawMap): (r: Result<ParsedMap, ConfigError>)
    ensures r.Success? <==> forall i :: 0 <= i < |raw| ==> ParseItems(cat, Items(raw[i].1)).Success?
    ensures r.Failure? ==>
      exists i :: FirstFailingAt(cat, raw, i) && r.error == ParseItems(cat, Items(raw[i].1)).error
    ensures r.Success? ==>
      |r.value| == |raw|
      && forall i :: 0 <= i < |raw| ==> r.value[i] == (raw[i].0, ParseItems(cat, Items(raw[i].1)).value)
  {
    if raw == [] then Success([])
    else
      var first := ParseItems(cat, Items(raw[0].1));
      if first.Failure? then
        assert FirstFailingAt(cat, raw, 0);
        Failure(first.error)
      else
        var rest := ParseMappings(cat, raw[1..]);
        if rest.Failure? then
          assert exists i :: FirstFailingAt(cat, raw, i) && rest.error == ParseItems(cat, Items(raw[i].1)).error by {
            var i :| FirstFailingAt(cat, raw[1..], i) && rest.error == ParseItems(cat, Items(raw[1..][i].1)).error;
            assert raw[1..][i] == raw[i + 1];
            forall i' | 1 <= i' < i + 1 ensures ParseItems(cat, Items(raw[i'].1)).Success? {
              assert raw[i'] == raw[1..][i' - 1];
            }
            assert FirstFailingAt(cat, raw, i + 1);
          }
          Failure(rest.error)
        else
          assert forall i :: 1 <= i < |raw| ==> raw[i] == raw[1..][i - 1];
          Success([(raw[0].0, first.value)] + rest.value)
  }

  /** A label mapped to a single button name gets that one button and no
      axis. */
  lemma ParseSingleButton(cat: Catalog, name: string)
    requires Normalize(name) in cat.buttons
    ensures ParseItems(cat, Items(Single(name))) == Success(Conditions([cat.buttons[Normalize(name)]], []))
  {
    var items := Items(Single(name));
    assert ItemValid(cat, items[0]);
    assert ButtonNames(items) == [name];
    assert AxisFirsts(items) == [];
    ParseItemsButtons(cat, items);
    ParseItemsAxes(cat, items);
    var r := ParseItems(cat, items).value;
    assert r.buttons == [cat.buttons[Normalize(name)]];
    assert r.axes == [];
  }

  lemma {:induction false} AxisDictShape(ts: seq<(string, real)>)
    ensures ButtonNames(Items(AxisDict(ts))) == []
    ensures AxisFirsts(Items(AxisDict(ts))) == ts
  {
    if ts != [] {
      AxisDictShape(ts[1..]);
      assert Items(AxisDict(ts))[1..] == Items(AxisDict(ts[1..]));
    }
  }

  /** A label mapped to a dictionary gets one axis condition per key, with
      the scaled threshold, and no button. */
  lemma ParseAxisDict(cat: Catalog, ts: seq<(string, real)>)
    requires forall k :: 0 <= k < |ts| ==> Normalize(ts[k].0) in cat.axes
    ensures ParseItems(cat, Items(AxisDict(ts))).Success?
    ensures ParseItems(cat, Items(AxisDict(ts))).value.buttons == []
    ensures |ParseItems(cat, Items(AxisDict(ts))).value.axes| == |ts|
    ensures forall k :: 0 <= k < |ts| ==>
      ParseItems(cat, Items(AxisDict(ts))).value.axes[k]
        == AxisCondition(cat.axes[Normalize(ts[k].0)], ScaleThreshold(ts[k].1))
  {
    AxisDictShape(ts);
    var items := Items(AxisDict(ts));
    assert forall k :: 0 <= k < |items| ==> items[k] == AxisEntries([ts[k]]);
    assert forall k :: 0 <= k < |items| ==> ItemValid(cat, items[k]);
    ParseItemsButtons(cat, items);
    ParseItemsAxes(cat, items);
  }

  // ---------------------------------------------------------------------
  // Event processing

  /** A controller event of the batch handed to `listen`. */
  datatype Event =
    | ButtonDown(button: int, state: int)
    | ButtonUp(button: int, state: int)
    | AxisMotion(axis: int, value: int)
    | OtherEvent

  predicate SetsButton(e: Event, b: int)
  {
    (e.ButtonDown? || e.ButtonUp?) && e.button == b
  }

  predicate SetsAxis(e: Event, a: int)
  {
    e.AxisMotion? && e.axis == a
  }

  /** The button state after the events, one at a time. */
  function ApplyButtons(s: map<int, int>, events: seq<Event>): map<int, int>
  {
    if events == [] then s
    else
      var before := ApplyButtons(s, events[..|events| - 1]);
      var e := events[|events| - 1];
      if e.ButtonDown? || e.ButtonUp? then before[e.button := e.state] else before
  }

  /** The axis state after the events, one at a time. */
  function ApplyAxes(s: map<int, int>, events: seq<Event>): map<int, int>
  {
    if events == [] then s
    else
      var before := ApplyAxes(s, events[..|events| - 1]);
      var e := events[|events| - 1];
      if e.AxisMotion? then before[e.axis := e.value] else before
  }

  /** Some event of the batch moved a trigger axis. */
  predicate TriggerMoved(events: seq<Event>)
  {
    exists k :: 0 <= k < |events| && events[k].AxisMotion?
      && (events[k].axis == TriggerLeft || events[k].axis == TriggerRight)
  }

  /** A button no event of the batch set keeps its old entry, or its
      absence. */
  lemma {:induction false} ButtonUnsetKept(s: map<int, int>, events: seq<Event>, b: int)
    requires forall k :: 0 <= k < |events| ==> !SetsButton(events[k], b)
    ensures b in ApplyButtons(s, events) <==> b in s
    ensures b in s ==> ApplyButtons(s, events)[b] == s[b]
  {
    if events != [] {
      var n := |events| - 1;
      assert forall k :: 0 <= k < n ==> events[..n][k] == events[k];
      ButtonUnsetKept(s, events[..n], b);
      assert !SetsButton(events[n], b);
    }
  }

  /** After a batch, a button holds the state of the last event that set
      it. */
  lemma {:induction false} ButtonLastSet(s: map<int, int>, events: seq<Event>, b: int, k: nat)
    requires k < |events| && SetsButton(events[k], b)
    requires forall k' :: k < k' < |events| ==> !SetsButton(events[k'], b)
    ensures b in ApplyButtons(s, events) && ApplyButtons(s, events)[b] == events[k].state
  {
    var n := |events| - 1;
    if k < n {
      assert forall k' :: 0 <= k' < n ==> events[..n][k'] == events[k'];
      ButtonLastSet(s, events[..n], b, k);
      assert !SetsButton(events[n], b);
    }
  }

  /** An axis no event of the batch moved keeps its old entry, or its
      absence. */
  lemma {:induction false} AxisUnsetKept(s: map<int, int>, events: seq<Event>, a: int)
    requires forall k :: 0 <= k < |events| ==> !SetsAxis(events[k], a)
    ensures a in ApplyAxes(s, events) <==> a in s
    ensures a in s ==> ApplyAxes(s, events)[a] == s[a]
  {
    if events != [] {
      var n := |events| - 1;
      assert forall k :: 0 <= k < n ==> events[..n][k] == events[k];
      AxisUnsetKept(s, events[..n], a);
      assert !SetsAxis(events[n], a);
    }
  }

  /** After a batch, an axis holds the value of the last motion event on
      it. */
  lemma {:induction false} AxisLastSet(s: map<int, int>, events: seq<Event>, a: int, k: nat)
    requires k < |events| && SetsAxis(events[k], a)
    requires forall k' :: k < k' < |events| ==> !SetsAxis(events[k'], a)
    ensures a in ApplyAxes(s, events) && ApplyAxes(s, events)[a] == events[k].value
  {
    var n := |events| - 1;
    if k < n {
      assert forall k' :: 0 <= k' < n ==> events[..n][k'] == events[k'];
      AxisLastSet(s, events[..n], a, k);
      assert !SetsAxis(events[n], a);
    }
  }

  lemma {:induction false} ApplyKeepsKeys(s: map<int, int>, t: map<int, int>, events: seq<Event>)
    ensures s.Keys <= ApplyButtons(s, events).Keys
    ensures t.Keys <= ApplyAxes(t, events).Keys
  {
    if events != [] {
      ApplyKeepsKeys(s, t, events[..|events| - 1]);
    }
  }

  /** After a batch, a button has a state entry iff it had one before or
      some event of the batch set it. */
  lemma {:induction false} ApplyButtonsKeys(s: map<int, int>, events: seq<Event>, b: int)
    ensures b in ApplyButtons(s, events) <==>
      b in s || exists k :: 0 <= k < |events| && SetsButton(events[k], b)
  {
    if events != [] {
      var init := events[..|events| - 1];
      ApplyButtonsKeys(s, init, b);
      if exists k :: 0 <= k < |init| && SetsButton(init[k], b) {
        var k :| 0 <= k < |init| && SetsButton(init[k], b);
        assert events[k] == init[k];
      }
      if exists k :: 0 <= k < |events| && SetsButton(events[k], b) {
        var k :| 0 <= k < |events| && SetsButton(events[k], b);
        if k < |init| {
          assert init[k] == events[k];
        }
      }
    }
  }

  /** After a batch, an axis has a state entry iff it had one before or some
      motion event of the batch set it. */
  lemma {:induction false} ApplyAxesKeys(s: map<int, int>, events: seq<Event>, a: int)
    ensures a in ApplyAxes(s, events) <==>
      a in s || exists k :: 0 <= k < |events| && SetsAxis(events[k], a)
  {
    if events != [] {
      var init := events[..|events| - 1];
      ApplyAxesKeys(s, init, a);
      if exists k :: 0 <= k < |init| && SetsAxis(init[k], a) {
        var k :| 0 <= k < |init| && SetsAxis(init[k], a);
        assert events[k] == init[k];
      }
      if exists k :: 0 <= k < |events| && SetsAxis(events[k], a) {
        var k :| 0 <= k < |events| && SetsAxis(events[k], a);
        if k < |init| {
          assert init[k] == events[k];
        }
      }
    }
  }

  /** The trigger flag of the event loop: a batch one event longer moved a
      trigger iff the shorter batch did or the new event is motion on a
      trigger. */
  lemma TriggerMovedSnoc(events: seq<Event>, e: Event)
    ensures TriggerMoved(events + [e]) <==>
      TriggerMoved(events) || SetsAxis(e, TriggerLeft) || SetsAxis(e, TriggerRight)
  {
    var longer := events + [e];
    if TriggerMoved(longer) {
      var k :| 0 <= k < |longer| && longer[k].AxisMotion?
        && (longer[k].axis == TriggerLeft || longer[k].axis == TriggerRight);
      if k < |events| {
        assert events[k] == longer[k];
      }
    }
    if TriggerMoved(events) {
      var k :| 0 <= k < |events| && events[k].AxisMotion?
        && (events[k].axis == TriggerLeft || events[k].axis == TriggerRight);
      assert longer[k] == events[k];
    }
    assert longer[|events|] == e;
  }

  /** A batch that moved no trigger leaves both trigger entries, and their
      absence, as they were. */
  lemma TriggerUnmovedKept(s: map<int, int>, events: seq<Event>)
    requires !TriggerMoved(events)
    ensures TriggerLeft in ApplyAxes(s, events) <==> TriggerLeft in s
    ensures TriggerRight in ApplyAxes(s, events) <==> TriggerRight in s
    ensures TriggerLeft in s ==> ApplyAxes(s, events)[TriggerLeft] == s[TriggerLeft]
    ensures TriggerRight in s ==> ApplyAxes(s, events)[TriggerRight] == s[TriggerRight]
  {
    AxisUnsetKept(s, events, TriggerLeft);
    AxisUnsetKept(s, events, TriggerRight);
  }

  // ---------------------------------------------------------------------
  // Resolution

  /** An axis value satisfies a threshold: at or below a negative one, at or
      above any other. */
  predicate Meets(value: int, threshold: int)
    ensures Meets(value, threshold) && threshold != 0 ==> (value < 0 <==> threshold < 0)
  {
    if threshold < 0 then value <= threshold else value >= threshold
  }

  /** All of a label's conditions hold: every button nonzero, every axis
      beyond its threshold. */
  predicate Satisfied(c: Conditions, buttons: map<int, int>, axes: map<int, int>)
  {
    && (forall b :: b in c.buttons ==> b in buttons && buttons[b] != 0)
    && (forall a :: a in c.axes ==> a.axis in axes && Meets(axes[a.axis], a.threshold))
  }

  /** The position of the first label, in map order, whose conditions hold. */
  function FirstSatisfied(m: ParsedMap, buttons: map<int, int>, axes: map<int, int>): (r: Option<nat>)
    ensures r.Some? ==>
      r.value < |m| && Satisfied(m[r.value].1, buttons, axes)
      && forall j :: 0 <= j < r.value ==> !Satisfied(m[j].1, buttons, axes)
    ensures r.None? ==> forall j :: 0 <= j < |m| ==> !Satisfied(m[j].1, buttons, axes)
  {
    if m == [] then None
    else if Satisfied(m[0].1, buttons, axes) then Some(0)
    else
      match FirstSatisfied(m[1..], buttons, axes)
      case Some(k) => Some(k + 1)
      case None => None
  }

  /** The first satisfied label is unique: a satisfied label with no
      satisfied label before it is the answer. */
  lemma {:induction false} FirstSatisfiedAt(m: ParsedMap, buttons: map<int, int>, axes: map<int, int>, i: nat)
    requires i < |m| && Satisfied(m[i].1, buttons, axes)
    requires forall j :: 0 <= j < i ==> !Satisfied(m[j].1, buttons, axes)
    ensures FirstSatisfied(m, buttons, axes) == Some(i)
  {
    if i > 0 {
      assert forall j :: 0 <= j < |m| - 1 ==> m[1..][j] == m[j + 1];
      FirstSatisfiedAt(m[1..], buttons, axes, i - 1);
    }
  }

  /** No label satisfied: no answer. */
  lemma FirstSatisfiedNone(m: ParsedMap, buttons: map<int, int>, axes: map<int, int>)
    requires forall j :: 0 <= j < |m| ==> !Satisfied(m[j].1, buttons, axes)
    ensures FirstSatisfied(m, buttons, axes) == None
  {
  }

  /** Every button the map mentions. */
  function MappedButtons(m: ParsedMap): set<int>
  {
    if m == [] then {}
    else
      var bs := m[|m| - 1].1.buttons;
      MappedButtons(m[..|m| - 1]) + (set k | 0 <= k < |bs| :: bs[k])
  }

  /** Every axis the map mentions. */
  function MappedAxes(m: ParsedMap): set<int>
  {
    if m == [] then {} else MappedAxes(m[..|m| - 1]) + (set a | a in m[|m| - 1].1.axes :: a.axis)
  }

  lemma {:induction false} MappedContains(m: ParsedMap, i: nat)
    requires i < |m|
    ensures forall k :: 0 <= k < |m[i].1.buttons| ==> m[i].1.buttons[k] in MappedButtons(m)
    ensures forall k :: 0 <= k < |m[i].1.axes| ==> m[i].1.axes[k].axis in MappedAxes(m)
  {
    if i < |m| - 1 {
      MappedContains(m[..|m| - 1], i);
    }
  }

  /** The response search at the end of `listen`: the labels in map order,
      each checked button by button and then axis by axis, stopping at the
      first condition that fails; the first label with none failing is
      the answer. */
  method FindResponse(m: ParsedMap, buttons: map<int, int>, axes: map<int, int>) returns (r: Option<nat>)
    requires MappedButtons(m) <= buttons.Keys && MappedAxes(m) <= axes.Keys
    ensures r == FirstSatisfied(m, buttons, axes)
  {
    var i := 0;
    while i < |m|
      invariant 0 <= i <= |m|
      invariant forall j :: 0 <= j < i ==> !Satisfied(m[j].1, buttons, axes)
    {
      var c := m[i].1;
      MappedContains(m, i);
      var incomplete := false;
      var k := 0;
      while k < |c.buttons| && !incomplete
        invariant 0 <= k <= |c.buttons|
        invariant !incomplete ==> forall k' :: 0 <= k' < k ==> c.buttons[k'] in buttons && buttons[c.buttons[k']] != 0
        invariant incomplete ==> !Satisfied(c, buttons, axes)
        decreases |c.buttons| - k + (if incomplete then 0 else 1)
      {
        var b := c.buttons[k];
        assert b in c.buttons && b in MappedButtons(m);
        if buttons[b] == 0 {
          incomplete := true;
        } else {
          k := k + 1;
        }
      }
      var n := 0;
      while n < |c.axes| && !incomplete
        invariant 0 <= n <= |c.axes|
        invariant !incomplete ==> forall n' :: 0 <= n' < n ==>
          c.axes[n'].axis in axes && Meets(axes[c.axes[n'].axis], c.axes[n'].threshold)
        invariant !incomplete ==> forall k' :: 0 <= k' < |c.buttons| ==>
          c.buttons[k'] in buttons && buttons[c.buttons[k']] != 0
        invariant incomplete ==> !Satisfied(c, buttons, axes)
        decreases |c.axes| - n + (if incomplete then 0 else 1)
      {
        var a := c.axes[n];
        assert a in c.axes && a.axis in MappedAxes(m);
        var value := axes[a.axis];
        var valid := if a.threshold < 0 then value <= a.threshold else value >= a.threshold;
        if !valid {
          incomplete := true;
        } else {
          n := n + 1;
        }
      }
      if !incomplete {
        assert Satisfied(c, buttons, axes) by {
          forall b | b in c.buttons ensures b in buttons && buttons[b] != 0 {
            var k' :| 0 <= k' < |c.buttons| && c.buttons[k'] == b;
          }
          forall a | a in c.axes ensures a.axis in axes && Meets(axes[a.axis], a.threshold) {
            var k' :| 0 <= k' < |c.axes| && c.axes[k'] == a;
          }
        }
        FirstSatisfiedAt(m, buttons, axes, i);
        return Some(i);
      }
      i := i + 1;
    }
    FirstSatisfiedNone(m, buttons, axes);
    r := None;
  }

  predicate AllZero(s: map<int, int>)
  {
    forall k :: k in s ==> s[k] == 0
  }

  /** On a freshly reset state, a label is satisfied iff it asks for no
      button and every one of its axis thresholds is 0. */
  lemma ZeroStateSatisfied(c: Conditions, buttons: map<int, int>, axes: map<int, int>)
    requires AllZero(buttons) && AllZero(axes)
    requires forall k :: 0 <= k < |c.buttons| ==> c.buttons[k] in buttons
    requires forall k :: 0 <= k < |c.axes| ==> c.axes[k].axis in axes
    ensures Satisfied(c, buttons, axes) <==>
      c.buttons == [] && forall a :: a in c.axes ==> a.threshold == 0
  {
    if c.buttons != [] {
      var b := c.buttons[0];
      assert b in buttons;
      assert buttons[b] == 0;
      assert b in c.buttons;
    } else {
      forall a | a in c.axes
        ensures Meets(axes[a.axis], a.threshold) <==> a.threshold == 0
      {
        var k :| 0 <= k < |c.axes| && c.axes[k] == a;
        assert axes[a.axis] == 0;
      }
    }
  }

  /** The button loop of `_reset_state` for one label: each of its buttons
      gets a zero entry. */
  method ZeroButtons(s: map<int, int>, buttons: seq<int>) returns (r: map<int, int>)
    requires AllZero(s)
    ensures r.Keys == s.Keys + (set k | 0 <= k < |buttons| :: buttons[k])
    ensures AllZero(r)
  {
    r := s;
    var j := 0;
    while j < |buttons|
      invariant 0 <= j <= |buttons|
      invariant r.Keys == s.Keys + (set k | 0 <= k < j :: buttons[k])
      invariant AllZero(r)
    {
      assert (set k | 0 <= k < j + 1 :: buttons[k]) == (set k | 0 <= k < j :: buttons[k]) + {buttons[j]};
      r := r[buttons[j] := 0];
      j := j + 1;
    }
  }

  /** The axis loop of `_reset_state` for one label: each of its axes gets
      a zero entry. */
  method ZeroAxes(s: map<int, int>, axes: seq<AxisCondition>) returns (r: map<int, int>)
    requires AllZero(s)
    ensures r.Keys == s.Keys + (set a | a in axes :: a.axis)
    ensures AllZero(r)
  {
    r := s;
    var j := 0;
    while j < |axes|
      invariant 0 <= j <= |axes|
      invariant r.Keys == s.Keys + (set a | a in axes[..j] :: a.axis)
      invariant AllZero(r)
    {
      assert axes[..j + 1] == axes[..j] + [axes[j]];
      r := r[axes[j].axis := 0];
      j := j + 1;
    }
    assert axes[..j] == axes;
  }

  // ---------------------------------------------------------------------
  // The listener

  /** One trigger sample: time since the window opened, left and right
      trigger values as read from the axis state. */
  datatype TriggerSample = TriggerSample(time: int, left: int, right: int)

  /** A resolved response: its label and the reaction time. */
  datatype Response = Response(responseLabel: string, rt: int)

  /** What one `listen` call ends with: a response, nothing yet, or the
      KeyError raised when a trigger moved but the other trigger has no state
      entry. */
  datatype ListenResult = Resolved(response: Response) | Pending | MissingTriggerState(axis: int)

  datatype InitError = NoResponseMap

  /** `GamepadResponse`: the parsed map and the live state of one response
      window. */
  class GamepadResponse {
    var buttonState: map<int, int>
    var axisState: map<int, int>
    var responseMap: ParsedMap
    var userMap: RawMap
    var rawTriggerData: seq<TriggerSample>

    /** Every button and axis the map mentions has a state entry, as
        `_reset_state` leaves it. */
    ghost predicate Armed()
      reads this
    {
      MappedButtons(responseMap) <= buttonState.Keys && MappedAxes(responseMap) <= axisState.Keys
    }

    /** `__init__` without a mapping: no map, no state, no samples. */
    constructor ()
      ensures buttonState == map[] && axisState == map[] && rawTriggerData == []
      ensures responseMap == [] && userMap == []
    {
      buttonState := map[];
      axisState := map[];
      responseMap := [];
      userMap := [];
      rawTriggerData := [];
    }

    /** The `response_map` setter: parses the new mapping and keeps both the
        parsed and the user form; on a parse error nothing changes. */
    method SetResponseMap(cat: Catalog, raw: RawMap) returns (err: Option<ConfigError>)
      modifies this
      ensures ParseMappings(cat, raw).Success? ==>
        err == None && responseMap == ParseMappings(cat, raw).value && userMap == raw
      ensures ParseMappings(cat, raw).Failure? ==>
        err == Some(ParseMappings(cat, raw).error)
        && responseMap == old(responseMap) && userMap == old(userMap)
      ensures buttonState == old(buttonState) && axisState == old(axisState)
      ensures rawTriggerData == old(rawTriggerData)
    {
      var parsed := ParseMappings(cat, raw);
      if parsed.Failure? {
        return Some(parsed.error);
      }
      responseMap := parsed.value;
      userMap := raw;
      err := None;
    }

    /** `_reset_state`: exactly the mapped buttons and axes have state, all
        of it 0, and no trigger sample is kept. */
    method ResetState()
      modifies this
      ensures buttonState.Keys == MappedButtons(responseMap)
      ensures forall b :: b in buttonState ==> buttonState[b] == 0
      ensures axisState.Keys == MappedAxes(responseMap)
      ensures forall a :: a in axisState ==> axisState[a] == 0
      ensures rawTriggerData == []
      ensures responseMap == old(responseMap) && userMap == old(userMap)
      ensures Armed()
    {
      var m := responseMap;
      var buttons: map<int, int> := map[];
      var axes: map<int, int> := map[];
      var i := 0;
      while i < |m|
        invariant 0 <= i <= |m|
        invariant responseMap == m && userMap == old(userMap)
        invariant buttons.Keys == MappedButtons(m[..i]) && AllZero(buttons)
        invariant axes.Keys == MappedAxes(m[..i]) && AllZero(axes)
      {
        assert m[..i + 1][..i] == m[..i] && m[..i + 1][i] == m[i];
        buttons := ZeroButtons(buttons, m[i].1.buttons);
        axes := ZeroAxes(axes, m[i].1.axes);
        i := i + 1;
      }
      assert m[..i] == m;
      buttonState := buttons;
      axisState := axes;
      rawTriggerData := [];
    }

    /** `init`: resets the state, then refuses a listener with an empty
        map. */
    method Init() returns (err: Option<InitError>)
      modifies this
      ensures err == (if |responseMap| == 0 then Some(NoResponseMap) else None)
      ensures buttonState.Keys == MappedButtons(responseMap)
      ensures forall b :: b in buttonState ==> buttonState[b] == 0
      ensures axisState.Keys == MappedAxes(responseMap)
      ensures forall a :: a in axisState ==> axisState[a] == 0
      ensures rawTriggerData == []
      ensures responseMap == old(responseMap) && userMap == old(userMap)
      ensures Armed()
    {
      ResetState();
      if |responseMap| == 0 {
        return Some(NoResponseMap);
      }
      err := None;
    }

    /** `listen`: applies the batch to the state, appends one trigger sample
        if a trigger moved, then answers the first label whose conditions
        all hold.  `elapsed` is the time since the window opened. */
    method Listen(events: seq<Event>, elapsed: int) returns (r: ListenResult)
      requires Armed()
      modifies this
      ensures buttonState == ApplyButtons(old(buttonState), events)
      ensures axisState == ApplyAxes(old(axisState), events)
      ensures responseMap == old(responseMap) && userMap == old(userMap)
      ensures Armed()
      ensures TriggerMoved(events) && TriggerLeft !in axisState ==>
        r == MissingTriggerState(TriggerLeft) && rawTriggerData == old(rawTriggerData)
      ensures TriggerMoved(events) && TriggerLeft in axisState && TriggerRight !in axisState ==>
        r == MissingTriggerState(TriggerRight) && rawTriggerData == old(rawTriggerData)
      ensures TriggerMoved(events) && TriggerLeft in axisState && TriggerRight in axisState ==>
        rawTriggerData == old(rawTriggerData)
          + [TriggerSample(elapsed, axisState[TriggerLeft], axisState[TriggerRight])]
      ensures !TriggerMoved(events) ==> rawTriggerData == old(rawTriggerData)
      ensures r.MissingTriggerState? <==>
        TriggerMoved(events) && (TriggerLeft !in axisState || TriggerRight !in axisState)
      ensures !r.MissingTriggerState? ==>
        match FirstSatisfied(responseMap, buttonState, axisState)
        case Some(i) => r == Resolved(Response(responseMap[i].0, elapsed))
        case None => r == Pending
    {
      var triggerUpdate := false;
      var n := 0;
      while n < |events|
        invariant 0 <= n <= |events|
        invariant buttonState == ApplyButtons(old(buttonState), events[..n])
        invariant axisState == ApplyAxes(old(axisState), events[..n])
        invariant triggerUpdate <==> TriggerMoved(events[..n])
        invariant responseMap == old(responseMap) && userMap == old(userMap)
        invariant rawTriggerData == old(rawTriggerData)
      {
        var e := events[n];
        assert events[..n + 1][..n] == events[..n];
        match e {
          case ButtonDown(b, st) =>
            buttonState := buttonState[b := st];
          case ButtonUp(b, st) =>
            buttonState := buttonState[b := st];
          case AxisMotion(a, v) =>
            axisState := axisState[a := v];
            if a == TriggerLeft || a == TriggerRight {
              triggerUpdate := true;
            }
          case OtherEvent =>
        }
        assert events[..n + 1] == events[..n] + [e];
        TriggerMovedSnoc(events[..n], e);
        n := n + 1;
      }
      assert events[..n] == events;
      ApplyKeepsKeys(old(buttonState), old(axisState), events);

      if triggerUpdate {
        if TriggerLeft !in axisState {
          return MissingTriggerState(TriggerLeft);
        }
        if TriggerRight !in axisState {
          return MissingTriggerState(TriggerRight);
        }
        rawTriggerData := rawTriggerData
          + [TriggerSample(elapsed, axisState[TriggerLeft], axisState[TriggerRight])];
      }

      var found := FindResponse(responseMap, buttonState, axisState);
      r := if found.Some? then Resolved(Response(responseMap[found.value].0, elapsed)) else Pending;
    }
  }
}
