/** Canonicalize and writeCanonical (internal/audit/hashchain.go), and what
    canonical text is worth: it names a JSON value, whatever text the value came
    from. */
module Canonicalizing {
  import opened Base
  import opened Text
  import opened CanonicalJson
  import opened JsonReader
  import opened JsonRoundTrip
  import Sorting

  datatype CanonError = Malformed

  /** Canonicalize: no text at all stands for null; other text is decoded and
      printed again. */
  ghost function CanonicalForm(raw: string, num: Reading): Result<string, CanonError> {
    if raw == "" then Ok("null")
    else
      match Unmarshal(raw, num)
      case None => Err(Malformed)
      case Some(v) => Ok(Canonical(v))
  }

  // ----- the writer -----

  lemma Assoc(a: string, b: string, c: string)
    ensures a + b + c == a + (b + c)
  {
  }

  /** One more comma-separated part. */
  lemma JoinNext(parts: seq<string>, i: nat)
    requires i < |parts|
    ensures Join(parts[..i + 1], ",") == (if i == 0 then "" else Join(parts[..i], ",") + ",") + parts[i]
  {
    assert parts[..i + 1] == parts[..i] + [parts[i]];
    JoinSnoc(parts[..i], parts[i], ",");
  }

  /** The texts of an object's members, in the canonical order. */
  ghost function SortedMembers(v: Json): (r: seq<string>)
    requires v.JObj?
    ensures |r| == |ByKey(v)|
  {
    NamedTexts(ByKey(v), MemberTexts(v))
  }

  lemma Member(v: Json, keys: seq<string>, i: nat)
    requires v.JObj? && keys == ByKey(v) && i < |keys|
    ensures keys[i] in v.members && SortedMembers(v)[i] == Quote(keys[i]) + ":" + Canonical(v.members[keys[i]])
  {
    ByKeyEnumerates(v);
    assert keys[i] in keys;
    hide Quote, Canonical;
  }

  lemma ObjectText(v: Json, before: string)
    requires v.JObj?
    ensures before + "{" + Join(SortedMembers(v), ",") + "}" == before + Canonical(v)
  {
    hide Join, NamedTexts, MemberTexts;
    Wrapped(before, "{", Join(SortedMembers(v), ","), "}");
  }

  class Buffer {
    var text: string

    constructor ()
      ensures text == ""
    {
      text := "";
    }

    /** writeCanonical: appends the canonical text, whatever order the map yields
        its keys in. */
    method WriteCanonical(v: Json)
      modifies this
      ensures text == old(text) + Canonical(v)
      decreases v, 1
    {
      match v {
        case JNull => text := text + "null";
        case JBool(b) => text := text + if b then "true" else "false";
        case JNum(t) => text := text + t;
        case JStr(t) => text := text + Quote(t);
        case JArr(_) => WriteArray(v);
        case JObj(_) => WriteObject(v);
      }
    }

    method WriteArray(v: Json)
      requires v.JArr?
      modifies this
      ensures text == old(text) + Canonical(v)
      decreases v, 0
    {
      ghost var parts := ItemTexts(v);
      ghost var start := old(text) + "[";
      text := text + "[";
      var i := 0;
      while i < |v.items|
        invariant 0 <= i <= |v.items|
        invariant text == start + Join(parts[..i], ",")
      {
        hide Join;
        JoinNext(parts, i);
        ghost var done := Join(parts[..i], ",");
        if i > 0 { text := text + ","; }
        WriteCanonical(v.items[i]);
        assert text == start + Join(parts[..i + 1], ",") by {
          if i == 0 { assert done == "" by { JoinNone(); } }
          else { Assoc(start, done, ","); Assoc(start, done + ",", parts[i]); }
        }
        i := i + 1;
      }
      assert parts[..i] == parts;
      text := text + "]";
      Wrapped(old(text), "[", Join(parts, ","), "]");
    }

    method WriteObject(v: Json)
      requires v.JObj?
      modifies this
      ensures text == old(text) + Canonical(v)
      decreases v, 0
    {
      hide Canonical, SortedMembers, Quote, ByKey, Join;
      ghost var parts := SortedMembers(v);
      ghost var start := old(text) + "{";
      JoinNone();
      var keys := SortedNames(v.members);
      text := text + "{";
      var i := 0;
      while i < |keys|
        invariant 0 <= i <= |keys|
        invariant text == start + Join(parts[..i], ",")
      {
        Member(v, keys, i);
        JoinNext(parts, i);
        ghost var done := Join(parts[..i], ",");
        ghost var value := Canonical(v.members[keys[i]]);
        if i > 0 { text := text + ","; }
        ghost var lead := text;
        text := text + Quote(keys[i]);
        text := text + ":";
        WriteCanonical(v.members[keys[i]]);
        Assoc(lead, Quote(keys[i]), ":");
        Assoc(lead, Quote(keys[i]) + ":", value);
        assert text == start + Join(parts[..i + 1], ",") by {
          if i > 0 { Assoc(start, done, ","); Assoc(start, done + ",", parts[i]); }
        }
        i := i + 1;
      }
      assert parts[..i] == parts;
      text := text + "}";
      ObjectText(v, old(text));
    }
  }

  lemma JoinNone()
    ensures Join([], ",") == ""
  {
  }

  lemma Wrapped(a: string, open: string, body: string, close: string)
    ensures a + open + body + close == a + (open + body + close)
  {
  }

  /** The keys of a map, gathered in any order, then sorted. */
  method SortedNames(m: map<string, Json>) returns (keys: seq<string>)
    ensures keys == ByKey(JObj(m))
  {
    var todo := m.Keys;
    var found: seq<string> := [];
    while todo != {}
      invariant todo <= m.Keys
      invariant (set k | k in found) == m.Keys - todo
      invariant forall i, j | 0 <= i < j < |found| :: found[i] != found[j]
      decreases todo
    {
      var k :| k in todo;
      assert k !in set x | x in found;
      ghost var before := found;
      found, todo := found + [k], todo - {k};
      assert (set x | x in found) == (set x | x in before) + {k};
    }
    keys := Sorting.SortStrings(found);
    assert (set k | k in found) == m.Keys;
  }

  method Canonicalize(raw: string, num: Reading) returns (r: Result<string, CanonError>)
    ensures r == CanonicalForm(raw, num)
  {
    if |raw| == 0 { return Ok("null"); }
    var v := Unmarshal(raw, num);
    if v.None? { return Err(Malformed); }
    var buf := new Buffer();
    buf.WriteCanonical(v.value);
    assert "" + Canonical(v.value) == Canonical(v.value);
    r := Ok(buf.text);
  }

  // ----- what canonical text is worth -----

  /** Printed text, in any member orders, decodes to the value printed. */
  lemma ReadsBack(v: Json, s: string, num: Reading)
    requires Renders(v, s) && Valid(v, num)
    ensures Unmarshal(s, num) == Some(v)
  {
    RenderingStarts(v, s, num);
    SkipNothing(s, "");
    Reads(v, s, num, "");
    hide Renders, Valid, ReadValue, SkipBlank;
    assert s + "" == s;
    assert SkipBlank("") == "" by { NothingToSkip(); }
  }

  lemma NothingToSkip()
    ensures SkipBlank("") == ""
  {
  }

  /** Canonical text is self-delimiting: where one value ends and what follows
      begins can be told apart. */
  lemma SelfDelimiting(v: Json, rest: string, w: Json, tail: string, num: Reading)
    requires Valid(v, num) && Valid(w, num) && Delimits(v, rest) && Delimits(w, tail)
    requires Canonical(v) + rest == Canonical(w) + tail
    ensures v == w && rest == tail
  {
    hide Canonical, Renders;
    CanonicalRenders(v);
    CanonicalRenders(w);
    Reads(v, Canonical(v), num, rest);
    Reads(w, Canonical(w), num, tail);
  }

  /** Whatever decodes carries each number by the text its float64 formats to. */
  lemma {:induction false} DecodedIsValid(s: string, num: Reading)
    requires Steady(num)
    ensures ReadValue(s, num).Some? ==> Valid(ReadValue(s, num).value.0, num)
    decreases |s|, 0
  {
    hide ReadChars, IsNumber, SkipBlank;
    if ReadValue(s, num).Some? && ReadValue(s, num).value.0.JArr? {
      if SkipBlank(s[1..]) != "" { ItemsAreValid(SkipBlank(s[1..]), num); }
    } else if ReadValue(s, num).Some? && ReadValue(s, num).value.0.JObj? {
      if SkipBlank(s[1..]) != "" { MembersAreValid(SkipBlank(s[1..]), num); }
    }
  }

  lemma {:induction false} ItemsAreValid(s: string, num: Reading)
    requires Steady(num)
    ensures ReadItems(s, num).Some? ==> forall x | x in ReadItems(s, num).value.0 :: Valid(x, num)
    decreases |s|, 1
  {
    hide ReadValue, SkipBlank, Valid;
    DecodedIsValid(SkipBlank(s), num);
    if ReadValue(SkipBlank(s), num).Some? {
      var t := SkipBlank(ReadValue(SkipBlank(s), num).value.1);
      if t != "" { ItemsAreValid(t[1..], num); }
    }
  }

  lemma {:induction false} MembersAreValid(s: string, num: Reading)
    requires Steady(num)
    ensures ReadMembers(s, num).Some? ==>
              forall k | k in ReadMembers(s, num).value.0 :: Valid(ReadMembers(s, num).value.0[k], num)
    decreases |s|, 1
  {
    hide ReadValue, ReadName, SkipBlank, Valid;
    var name := ReadName(SkipBlank(s));
    if name.Some? {
      var u := SkipBlank(name.value.1);
      DecodedIsValid(u, num);
      if ReadValue(u, num).Some? {
        var t := SkipBlank(ReadValue(u, num).value.1);
        if t != "" { MembersAreValid(t[1..], num); }
      }
    }
  }

  lemma UnmarshalIsValid(s: string, num: Reading)
    requires Steady(num)
    ensures Unmarshal(s, num).Some? ==> Valid(Unmarshal(s, num).value, num)
  {
    DecodedIsValid(SkipBlank(s), num);
  }

  lemma CanonicalDecodes(v: Json, num: Reading)
    requires Valid(v, num)
    ensures Canonical(v) != "" && Unmarshal(Canonical(v), num) == Some(v)
  {
    hide Canonical, Renders;
    CanonicalRenders(v);
    RenderingStarts(v, Canonical(v), num);
    ReadsBack(v, Canonical(v), num);
  }

  /** Canonical text is its own canonical form. */
  lemma Idempotent(raw: string, num: Reading)
    requires Steady(num)
    ensures CanonicalForm(raw, num).Ok? ==>
              CanonicalForm(CanonicalForm(raw, num).value, num) == CanonicalForm(raw, num)
  {
    if raw == "" {
      CanonicalDecodes(JNull, num);
    } else if Unmarshal(raw, num).Some? {
      UnmarshalIsValid(raw, num);
      CanonicalDecodes(Unmarshal(raw, num).value, num);
    }
    hide Unmarshal;
  }

  /** Two texts have the same canonical form exactly when they hold the same
      value; so equal output tells equal values, and blanks, escapes, number
      spellings and member order leave no trace. */
  lemma SameFormSameValue(a: string, b: string, num: Reading)
    requires Steady(num) && Unmarshal(a, num).Some? && Unmarshal(b, num).Some?
    ensures CanonicalForm(a, num) == CanonicalForm(b, num) <==> Unmarshal(a, num) == Unmarshal(b, num)
  {
    UnmarshalIsValid(a, num);
    UnmarshalIsValid(b, num);
    CanonicalDecodes(Unmarshal(a, num).value, num);
    CanonicalDecodes(Unmarshal(b, num).value, num);
  }

  /** Printing the members of any object, anywhere in a text, in another order
      changes nothing. */
  lemma KeyOrderLeavesNoTrace(v: Json, num: Reading, one: string, other: string)
    requires Renders(v, one) && Renders(v, other) && Valid(v, num)
    ensures CanonicalForm(one, num) == CanonicalForm(other, num) == Ok(Canonical(v))
  {
    RenderingStarts(v, one, num);
    RenderingStarts(v, other, num);
    ReadsBack(v, one, num);
    ReadsBack(v, other, num);
    hide Unmarshal, Renders, Canonical;
  }
}
