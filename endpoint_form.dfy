/** The logic inside the endpoint form: field labels, the datetime input
    conversion, default items, and the editing of the item list. The current
    time is passed in as its ISO string; `JSON.parse` is a parameter. */
module EndpointForm {
  import opened Basics
  import opened JsText
  import opened Json
  import opened Jwe
  import opened Endpoints

  // ---------------------------------------------------------------- labels

  /** `replace(/([A-Z])/g, ' $1')`: a space before every capital letter, so
      the result is one character longer per capital. */
  function SpaceBeforeCapitals(s: string): (r: string)
    ensures |r| == |s| + |Filter(s, IsUpperAscii)|
    ensures forall i {:trigger IsUpperAscii(r[i])} :: 0 <= i < |r| && IsUpperAscii(r[i]) ==> i > 0 && r[i - 1] == ' '
  {
    if s == [] then []
    else (if IsUpperAscii(s[0]) then [' ', s[0]] else [s[0]]) + SpaceBeforeCapitals(s[1..])
  }

  /** `replace(/^./, str => str.toUpperCase())`: `.` does not match a line
      terminator, so such a first character is left alone. */
  function CapitaliseFirst(s: string): (r: string)
    ensures |r| == |s|
  {
    if s != [] && !IsLineTerminator(s[0]) then [UpperChar(s[0])] + s[1..] else s
  }

  /** `formatFieldName`: `shortTermIsin` becomes `Short Term Isin`. */
  function FormatFieldName(name: string): (r: string)
    ensures r == [] || (!IsJsSpace(r[0]) && !IsJsSpace(r[|r| - 1]))
  {
    Trim(CapitaliseFirst(SpaceBeforeCapitals(name)))
  }

  /** The inserted characters are spaces and nothing else. */
  lemma {:induction false} SpacesOnlyInserted(s: string)
    ensures RemoveSpaces(SpaceBeforeCapitals(s)) == RemoveSpaces(s)
  {
    if s != [] {
      SpacesOnlyInserted(s[1..]);
      var head := if IsUpperAscii(s[0]) then [' ', s[0]] else [s[0]];
      RemoveSpacesAppend(head, SpaceBeforeCapitals(s[1..]));
      RemoveSpacesAppend([s[0]], s[1..]);
      assert s == [s[0]] + s[1..];
      if IsUpperAscii(s[0]) {
        RemoveSpacesAppend([' '], [s[0]]);
        assert head == [' '] + [s[0]];
      }
    }
  }

  /** Inserting the spaces word by word is inserting them in the whole. */
  lemma {:induction false} SpaceBeforeCapitalsAppend(a: string, b: string)
    ensures SpaceBeforeCapitals(a + b) == SpaceBeforeCapitals(a) + SpaceBeforeCapitals(b)
  {
    if a != [] {
      var head := if IsUpperAscii(a[0]) then [' ', a[0]] else [a[0]];
      assert (a + b)[0] == a[0] && (a + b)[1..] == a[1..] + b;
      SpaceBeforeCapitalsAppend(a[1..], b);
      assert SpaceBeforeCapitals(a + b) == head + (SpaceBeforeCapitals(a[1..]) + SpaceBeforeCapitals(b));
    } else {
      assert a + b == b;
    }
  }

  /** A capital followed by lower-case letters gains exactly one space. */
  lemma {:induction false} SpaceBeforeWord(c: char, s: string)
    requires IsUpperAscii(c) && forall i :: 0 <= i < |s| ==> !IsUpperAscii(s[i])
    ensures SpaceBeforeCapitals([c] + s) == [' ', c] + s
  {
    assert ([c] + s)[1..] == s;
    NoCapitalsUnchanged(s);
  }

  lemma {:induction false} NoCapitalsUnchanged(s: string)
    requires forall i :: 0 <= i < |s| ==> !IsUpperAscii(s[i])
    ensures SpaceBeforeCapitals(s) == s
  {
    if s != [] {
      NoCapitalsUnchanged(s[1..]);
    }
  }

  /** The example of `formatFieldName`'s documentation. */
  lemma FormatFieldNameExample(name: string)
    requires name == "shortTermIsin"
    ensures FormatFieldName(name) == "Short Term Isin"
  {
    var t := ExampleSpaces(name);
    ExampleLabel(t);
  }

  lemma ExampleSpaces(name: string) returns (t: string)
    requires name == "shortTermIsin"
    ensures SpaceBeforeCapitals(name) == t && t == "short Term Isin"
  {
    t := ExampleWords(name);
    ExampleText(name, t);
  }

  lemma ExampleWords(name: string) returns (t: string)
    requires name == "shortTermIsin"
    ensures SpaceBeforeCapitals(name) == t
    ensures t == name[..5] + ([' ', name[5]] + name[6..9]) + ([' ', name[9]] + name[10..])
  {
    var w1, w2, w3 := name[..5], name[6..9], name[10..];
    assert name == w1 + ([name[5]] + w2) + ([name[9]] + w3);
    ThreeWords(w1, name[5], w2, name[9], w3);
    t := w1 + ([' ', name[5]] + w2) + ([' ', name[9]] + w3);
  }

  lemma ExampleText(name: string, t: string)
    requires name == "shortTermIsin"
    requires t == name[..5] + ([' ', name[5]] + name[6..9]) + ([' ', name[9]] + name[10..])
    ensures t == "short Term Isin"
  {
    assert name[..5] == "short" && [' ', name[5]] + name[6..9] == " Term" && [' ', name[9]] + name[10..] == " Isin";
  }

  /** A lower-case word followed by two capitalised words gains two spaces. */
  lemma ThreeWords(w1: string, c1: char, w2: string, c2: char, w3: string)
    requires IsUpperAscii(c1) && IsUpperAscii(c2)
    requires forall i :: 0 <= i < |w1| ==> !IsUpperAscii(w1[i])
    requires forall i :: 0 <= i < |w2| ==> !IsUpperAscii(w2[i])
    requires forall i :: 0 <= i < |w3| ==> !IsUpperAscii(w3[i])
    ensures SpaceBeforeCapitals(w1 + ([c1] + w2) + ([c2] + w3)) == w1 + ([' ', c1] + w2) + ([' ', c2] + w3)
  {
    SpaceBeforeCapitalsAppend(w1 + ([c1] + w2), [c2] + w3);
    SpaceBeforeCapitalsAppend(w1, [c1] + w2);
    NoCapitalsUnchanged(w1);
    SpaceBeforeWord(c1, w2);
    SpaceBeforeWord(c2, w3);
  }

  lemma ExampleLabel(t: string)
    requires t == "short Term Isin"
    ensures Trim(CapitaliseFirst(t)) == "Short Term Isin"
  {
    var u := CapitaliseFirst(t);
    assert u == "Short Term Isin";
    assert !IsJsSpace(u[0]) && !IsJsSpace(u[|u| - 1]);
    assert LeadingSpaces(u) == 0 && TrimmedEnd(u) == |u|;
  }

  /** Trimming removes only spaces. */
  lemma TrimRemovesOnlySpaces(s: string)
    ensures RemoveSpaces(Trim(s)) == RemoveSpaces(s)
  {
    var a, b := LeadingSpaces(s), TrimmedEnd(s);
    if b <= a {
      assert a == |s| by {
        if a < |s| {
          assert false;
        }
      }
      assert AllSpaces(s);
      RemoveSpacesOfSpaces(s);
    } else {
      assert s[..a] + s[a..b] == s[..b];
      assert s == s[..b] + s[b..];
      assert AllSpaces(s[..a]);
      assert AllSpaces(s[b..]);
      RemoveSpacesOfSpaces(s[..a]);
      RemoveSpacesOfSpaces(s[b..]);
      RemoveSpacesAppend(s[..a] + s[a..b], s[b..]);
      RemoveSpacesAppend(s[..a], s[a..b]);
    }
  }

  /** Deleting the spaces of a label gives back the field name with its
      first letter capitalised. */
  lemma FieldNameLabel(name: string)
    requires NoSpaces(name)
    ensures RemoveSpaces(FormatFieldName(name)) == CapitaliseFirst(name)
  {
    var t := SpaceBeforeCapitals(name);
    TrimRemovesOnlySpaces(CapitaliseFirst(t));
    SpacesOnlyInserted(name);
    RemoveSpacesOfNoSpaces(name);
    if name != [] {
      var rest := SpaceBeforeCapitals(name[1..]);
      if IsUpperAscii(name[0]) {
        assert CapitaliseFirst(t) == t;
        assert CapitaliseFirst(name) == name;
      } else {
        assert !IsJsSpace(name[0]);
        assert CapitaliseFirst(t) == [UpperChar(name[0])] + rest;
        assert !IsJsSpace(UpperChar(name[0]));
        RemoveSpacesAppend([UpperChar(name[0])], rest);
        RemoveSpacesAppend([name[0]], rest);
        assert t == [name[0]] + rest;
        assert RemoveSpaces(rest) == name[1..];
      }
    }
  }

  // --------------------------------------------------------------- datetime

  /** The value a `datetime-local` input shows for a stored value: the first
      `Z` removed, then the first sixteen characters. */
  function DatetimeDisplay(value: string): (r: string)
    ensures |r| <= 16
  {
    Slice(ReplaceFirst(value, "Z", ""), 0, 16)
  }

  /** The value stored for what the input holds: empty stays empty,
      otherwise seconds, milliseconds and the UTC marker are appended. */
  function DatetimeStore(input: string): (r: string)
    ensures input == "" <==> r == ""
  {
    if input != "" then input + ":00.000Z" else ""
  }

  /** A stored value that starts with a `Z`-free minute-precision time shows
      as that time, whatever follows it. */
  lemma DatetimeDisplayKeepsMinutes(v: string, rest: string)
    requires |v| == 16 && 'Z' !in v
    ensures DatetimeDisplay(v + rest) == v
  {
    var s := v + rest;
    assert s[..16] == v;
    match IndexOf(s, "Z")
    case None =>
    case Some(k) =>
      assert s[k] == 'Z';
      assert forall i :: 0 <= i < 16 ==> s[i] == v[i] && v[i] in v;
      assert (s[..k] + "" + s[k + 1..])[..16] == v;
  }

  /** Choosing a time and displaying what was stored shows the same time. */
  lemma DatetimeRoundTrip(v: string)
    requires |v| == 16 && 'Z' !in v
    ensures DatetimeDisplay(DatetimeStore(v)) == v
  {
    DatetimeDisplayKeepsMinutes(v, ":00.000Z");
  }

  // ------------------------------------------------------------ empty item

  /** The initial value of a field of the given type; dates take the current
      time. */
  function DefaultValue(t: FieldType, now: string): (v: Json)
    ensures v.JNumber? <==> t == NumberField
    ensures v.JBool? <==> t == BooleanField
    ensures t == DateField || t == DatetimeField ==> v == JString(now)
    ensures t != DateField && t != DatetimeField ==> Falsy(v)
  {
    match t
    case NumberField => JNumber(0.0)
    case BooleanField => JBool(false)
    case DateField => JString(now)
    case DatetimeField => JString(now)
    case StringField => JString("")
  }

  /** The record `createEmptyItem` builds by assigning the fields in order;
      a later field with the same name overwrites an earlier one. */
  function EmptyRecord(fields: seq<EndpointField>, now: string): Record
    decreases |fields|
  {
    if fields == [] then map[]
    else
      var last := fields[|fields| - 1];
      EmptyRecord(fields[..|fields| - 1], now)[last.name := DefaultValue(last.fieldType, now)]
  }

  /** The empty item has exactly one key per field name, and each key holds
      the default of the last field with that name. */
  lemma {:induction false} EmptyRecordShape(fields: seq<EndpointField>, now: string)
    ensures EmptyRecord(fields, now).Keys == set f | f in fields :: f.name
    ensures forall i :: 0 <= i < |fields| && (forall j :: i < j < |fields| ==> fields[j].name != fields[i].name) ==>
      EmptyRecord(fields, now)[fields[i].name] == DefaultValue(fields[i].fieldType, now)
    decreases |fields|
  {
    if fields != [] {
      var init := fields[..|fields| - 1];
      EmptyRecordShape(init, now);
      assert fields == init + [fields[|fields| - 1]];
      assert forall i :: 0 <= i < |init| ==> init[i] == fields[i];
    }
  }

  /** `createEmptyItem`, with the current time as `now`. */
  method CreateEmptyItem(fields: seq<EndpointField>, now: string) returns (item: Record)
    ensures item == EmptyRecord(fields, now)
  {
    item := map[];
    for i := 0 to |fields|
      invariant item == EmptyRecord(fields[..i], now)
    {
      var field := fields[i];
      match field.fieldType {
        case NumberField => item := item[field.name := JNumber(0.0)];
        case BooleanField => item := item[field.name := JBool(false)];
        case DateField => item := item[field.name := JString(now)];
        case DatetimeField => item := item[field.name := JString(now)];
        case StringField => item := item[field.name := JString("")];
      }
      assert fields[..i + 1][..i] == fields[..i];
    }
    assert fields[..|fields|] == fields;
  }

  // ------------------------------------------------------------ item list

  /** The items the form starts from, given the value it is handed: an array
      is taken as it is, an object becomes the only item, a string is parsed
      (a non-array result becomes the only item, a parse failure one empty
      item), and any other value gives no items. */
  function InitialItems(value: Json, parse: string -> Option<Json>,
                        fields: seq<EndpointField>, now: string): (items: seq<Json>)
    ensures value.JArray? ==> items == value.items
    ensures value.JObject? ==> items == [value]
    ensures value.JString? && parse(value.s).None? ==> items == [JObject(EmptyRecord(fields, now))]
    ensures value.JString? && parse(value.s).Some? ==>
      items == (if parse(value.s).value.JArray? then parse(value.s).value.items else [parse(value.s).value])
    ensures !(value.JArray? || value.JObject? || value.JString?) ==> items == []
  {
    match value
    case JArray(xs) => xs
    case JObject(_) => [value]
    case JString(text) =>
      (match parse(text)
       case None => [JObject(EmptyRecord(fields, now))]
       case Some(JArray(xs)) => xs
       case Some(parsed) => [parsed])
    case _ => []
  }

  /** The value the form reports for its items: the whole list for the array
      format, otherwise the first item, or `{}` when there is none or it is
      falsy. */
  function SyncValue(items: seq<Json>, format: PayloadFormat): (v: Json)
    ensures format == ArrayFormat ==> v == JArray(items)
    ensures format == ObjectFormat && items != [] && !Falsy(items[0]) ==> v == items[0]
    ensures format == ObjectFormat && (items == [] || Falsy(items[0])) ==> v == JObject(map[])
  {
    if format == ArrayFormat then JArray(items)
    else if items != [] && !Falsy(items[0]) then items[0]
    else JObject(map[])
  }

  /** Reporting the items and starting again from the reported value gives
      the same items back: always for the array format, and for a single
      object item in the object format. */
  lemma SyncThenInitialise(items: seq<Json>, format: PayloadFormat, parse: string -> Option<Json>,
                           fields: seq<EndpointField>, now: string)
    requires format == ObjectFormat ==> |items| == 1 && items[0].JObject?
    ensures InitialItems(SyncValue(items, format), parse, fields, now) == items
  {
  }

  /** `handleFieldChange`: the item with one key set to a new value. */
  function WithField(item: Record, name: string, value: Json): (r: Record)
    ensures r.Keys == item.Keys + {name}
    ensures r[name] == value
    ensures forall k :: k in item && k != name ==> r[k] == item[k]
  {
    item[name := value]
  }

  /** The item list of one form. */
  class Items {
    var items: seq<Json>

    constructor()
      ensures items == []
    {
      items := [];
    }

    /** The initialisation effect. */
    method Initialise(value: Json, parse: string -> Option<Json>, fields: seq<EndpointField>, now: string)
      modifies this
      ensures items == InitialItems(value, parse, fields, now)
    {
      match value
      case JArray(xs) => items := xs;
      case JObject(_) => items := [value];
      case JString(text) =>
        match parse(text) {
          case None =>
            var empty := CreateEmptyItem(fields, now);
            items := [JObject(empty)];
          case Some(parsed) =>
            items := if parsed.JArray? then parsed.items else [parsed];
        }
      case _ => items := [];
    }

    /** `addItem`: appends one empty item. */
    method AddItem(fields: seq<EndpointField>, now: string)
      modifies this
      ensures items == old(items) + [JObject(EmptyRecord(fields, now))]
    {
      var empty := CreateEmptyItem(fields, now);
      items := items + [JObject(empty)];
    }

    /** `removeItem`: drops the item at `index`, if there is one. */
    method RemoveItem(index: int)
      modifies this
      ensures items == RemoveIndex(old(items), index)
    {
      items := RemoveIndex(items, index);
    }

    /** `updateItem`: replaces the item at `index`. */
    method UpdateItem(index: nat, data: Record)
      requires index < |items|
      modifies this
      ensures items == old(items)[index := JObject(data)]
    {
      items := items[index := JObject(data)];
    }
  }
}
