/** Printing a Kubernetes label selector as a list of strings. */
module LabelSelector {
  import opened Wrappers
  import opened Text
  import opened SortedKeys

  const OP_IN := "In"
  const OP_NOT_IN := "NotIn"
  const OP_EXISTS := "Exists"
  const OP_DOES_NOT_EXIST := "DoesNotExist"

  datatype Requirement = Requirement(key: string, operator: string, values: seq<string>)

  datatype Selector = Selector(matchLabels: map<string, string>, matchExpressions: seq<Requirement>)

  function LabelText(key: string, value: string): string {
    key + "=" + value
  }

  function RequirementText(m: Requirement): string {
    if m.operator == OP_IN then m.key + " in (" + Join(m.values, ",") + ")"
    else if m.operator == OP_NOT_IN then m.key + " notin (" + Join(m.values, ",") + ")"
    else if m.operator == OP_DOES_NOT_EXIST then "!" + m.key
    else m.key
  }

  ghost predicate ListsLabels(texts: seq<string>, labels: map<string, string>, keys: seq<string>) {
    && |keys| <= |texts|
    && forall i :: 0 <= i < |keys| ==> keys[i] in labels && texts[i] == LabelText(keys[i], labels[keys[i]])
  }

  ghost predicate ListsExpressions(texts: seq<string>, from: nat, ms: seq<Requirement>) {
    && |texts| == from + |ms|
    && forall i :: 0 <= i < |ms| ==> texts[from + i] == RequirementText(ms[i])
  }

  // The labels in key order, and then the expressions in their own order.
  ghost predicate Lists(texts: seq<string>, s: Selector, keys: seq<string>) {
    && SortedKeysOf(keys, s.matchLabels.Keys)
    && ListsLabels(texts, s.matchLabels, keys)
    && ListsExpressions(texts, |keys|, s.matchExpressions)
  }

  // The text of each operator.
  lemma PrintedForms(key: string, value: string, values: seq<string>)
    ensures LabelText(key, value) == key + "=" + value
    ensures RequirementText(Requirement(key, "In", values)) == key + " in (" + Join(values, ",") + ")"
    ensures RequirementText(Requirement(key, "NotIn", values)) == key + " notin (" + Join(values, ",") + ")"
    ensures RequirementText(Requirement(key, "Exists", values)) == key
    ensures RequirementText(Requirement(key, "DoesNotExist", values)) == "!" + key
  {
  }

  lemma JoinStep(values: seq<string>, i: nat)
    requires i < |values|
    ensures Join(values[..i + 1], ",") == if i == 0 then values[0] else Join(values[..i], ",") + "," + values[i]
  {
    assert values[..i + 1] == values[..i] + [values[i]];
    JoinOneMore(values[..i], values[i], ",");
  }

  lemma WrittenLater(before: string, written: string, value: string)
    ensures before + (written + "," + value) == before + written + "," + value
  {
    Associate(before, written + ",", value);
    Associate(before, written, ",");
  }

  // The values are written one by one, each but the first after a comma.
  method PrintValues(before: string, values: seq<string>) returns (out: string)
    ensures out == before + Join(values, ",")
  {
    out := before;
    for i := 0 to |values|
      invariant out == before + Join(values[..i], ",")
    {
      JoinStep(values, i);
      WrittenLater(before, Join(values[..i], ","), values[i]);
      if i > 0 {
        out := out + ",";
      }
      out := out + values[i];
    }
    assert values[..|values|] == values;
  }

  method PrintRequirement(m: Requirement) returns (out: string)
    ensures out == RequirementText(m)
  {
    out := "";
    if m.operator == OP_DOES_NOT_EXIST {
      out := out + "!";
    }
    out := out + m.key;
    if m.operator == OP_IN || m.operator == OP_NOT_IN {
      out := out + " ";
      if m.operator == OP_NOT_IN {
        out := out + "not";
      }
      out := out + "in (";
      assert out == m.key + if m.operator == OP_IN then " in (" else " notin (";
      out := PrintValues(out, m.values);
      out := out + ")";
    }
  }

  lemma {:induction false} SortedLength(keys: seq<string>, s: set<string>)
    requires SortedKeysOf(keys, s)
    ensures |keys| == |s|
    decreases |keys|
  {
    if keys == [] {
      assert s == {};
    } else {
      var rest := s - {keys[0]};
      assert keys[0] in keys;
      forall k
        ensures k in keys[1..] <==> k in rest
      {
        assert k in keys <==> k == keys[0] || k in keys[1..];
      }
      SortedLength(keys[1..], rest);
    }
  }

  method FillLabels(res: array<string>, labels: map<string, string>, keys: seq<string>)
    requires |keys| <= res.Length && forall i :: 0 <= i < |keys| ==> keys[i] in labels
    modifies res
    ensures ListsLabels(res[..], labels, keys)
  {
    for i := 0 to |keys|
      invariant forall j :: 0 <= j < i ==> res[j] == LabelText(keys[j], labels[keys[j]])
    {
      var v := labels[keys[i]];
      res[i] := keys[i] + "=" + v;
    }
  }

  method FillExpressions(res: array<string>, lenLabels: nat, ms: seq<Requirement>)
    requires lenLabels + |ms| == res.Length
    modifies res
    ensures res[..lenLabels] == old(res[..lenLabels])
    ensures ListsExpressions(res[..], lenLabels, ms)
  {
    for i := 0 to |ms|
      invariant res[..lenLabels] == old(res[..lenLabels])
      invariant forall j :: 0 <= j < i ==> res[lenLabels + j] == RequirementText(ms[j])
    {
      var text := PrintRequirement(ms[i]);
      res[lenLabels + i] := text;
    }
  }

  lemma LabelsStay(texts: seq<string>, texts': seq<string>, labels: map<string, string>, keys: seq<string>)
    requires ListsLabels(texts, labels, keys) && |keys| <= |texts'| && texts[..|keys|] == texts'[..|keys|]
    ensures ListsLabels(texts', labels, keys)
  {
    forall i | 0 <= i < |keys|
      ensures texts'[i] == texts[i]
    {
      assert texts'[..|keys|][i] == texts[..|keys|][i];
    }
  }

  // The nil slice is None here.
  method List(selector: Option<Selector>) returns (r: Option<array<string>>)
    ensures r.None? <==>
              selector.None? || (selector.value.matchLabels == map[] && selector.value.matchExpressions == [])
    ensures r.Some? ==> fresh(r.value) && exists keys :: Lists(r.value[..], selector.value, keys)
  {
    if selector.None? {
      return None;
    }
    var s := selector.value;
    var lenLabels, lenMatchers := |s.matchLabels|, |s.matchExpressions|;
    if lenLabels == 0 && lenMatchers == 0 {
      return None;
    }
    var res := new string[lenLabels + lenMatchers];
    var keys := SortedStringKeys(s.matchLabels);
    SortedLength(keys, s.matchLabels.Keys);
    assert |s.matchLabels| == |s.matchLabels.Keys|;
    assert forall i :: 0 <= i < |keys| ==> keys[i] in s.matchLabels;
    FillLabels(res, s.matchLabels, keys);
    ghost var labelled := res[..];
    assert labelled[..lenLabels] == res[..lenLabels];
    FillExpressions(res, lenLabels, s.matchExpressions);
    assert res[..][..lenLabels] == res[..lenLabels];
    LabelsStay(labelled, res[..], s.matchLabels, keys);
    assert Lists(res[..], s, keys);
    r := Some(res);
  }

  // ---------- reading the list again ----------

  datatype Item = Label(key: string, value: string) | Expression(m: Requirement) | Garbled

  // Where the key ends.
  function KeyEnd(text: string): (p: nat)
    ensures p <= |text|
  {
    if text == "" || text[0] == ' ' || text[0] == '=' then 0 else 1 + KeyEnd(text[1..])
  }

  function ValuesIn(rest: string, prefix: string): seq<string>
    requires |prefix| < |rest|
  {
    Split(rest[|prefix|..|rest| - 1], ',')
  }

  function DecodeItem(text: string): Item {
    var p := KeyEnd(text);
    if text != "" && text[0] == '!' then Expression(Requirement(text[1..], OP_DOES_NOT_EXIST, []))
    else if p == |text| then Expression(Requirement(text, OP_EXISTS, []))
    else if text[p] == '=' then Label(text[..p], text[p + 1..])
    else
      var rest := text[p..];
      if " in (" < rest then Expression(Requirement(text[..p], OP_IN, ValuesIn(rest, " in (")))
      else if " notin (" < rest then Expression(Requirement(text[..p], OP_NOT_IN, ValuesIn(rest, " notin (")))
      else Garbled
  }

  function Decode(texts: seq<string>): Selector {
    DecodeUpTo(texts, |texts|)
  }

  function DecodeUpTo(texts: seq<string>, n: nat): Selector
    requires n <= |texts|
  {
    if n == 0 then Selector(map[], [])
    else
      var before := DecodeUpTo(texts, n - 1);
      match DecodeItem(texts[n - 1])
      case Label(key, value) => before.(matchLabels := before.matchLabels[key := value])
      case Expression(m) => before.(matchExpressions := before.matchExpressions + [m])
      case Garbled => before
  }

  ghost predicate GoodKey(key: string) {
    ' ' !in key && '=' !in key && (key == "" || key[0] != '!')
  }

  ghost predicate GoodRequirement(m: Requirement) {
    && GoodKey(m.key) && m.operator in [OP_IN, OP_NOT_IN, OP_EXISTS, OP_DOES_NOT_EXIST]
    && (m.operator in [OP_IN, OP_NOT_IN] ==> m.values != [] && forall i :: 0 <= i < |m.values| ==> ',' !in m.values[i])
  }

  ghost predicate GoodSelector(s: Selector) {
    && (forall k :: k in s.matchLabels ==> GoodKey(k))
    && (forall i :: 0 <= i < |s.matchExpressions| ==> GoodRequirement(s.matchExpressions[i]))
  }

  // Values given with Exists or DoesNotExist are ignored.
  function Meant(m: Requirement): Requirement {
    if m.operator in [OP_IN, OP_NOT_IN] then m else m.(values := [])
  }

  function AllMeant(ms: seq<Requirement>): (r: seq<Requirement>)
    ensures |r| == |ms| && forall i :: 0 <= i < |ms| ==> r[i] == Meant(ms[i])
  {
    seq(|ms|, i requires 0 <= i < |ms| => Meant(ms[i]))
  }

  lemma {:induction false} KeyEndAt(key: string, rest: string)
    requires ' ' !in key && '=' !in key && (rest == "" || rest[0] == ' ' || rest[0] == '=')
    ensures KeyEnd(key + rest) == |key|
  {
    if key == "" {
      assert key + rest == rest;
    } else {
      KeyEndAt(key[1..], rest);
      assert (key + rest)[1..] == key[1..] + rest && (key + rest)[0] == key[0];
      assert key[0] in key;
    }
  }

  lemma DecodeLabel(key: string, value: string)
    requires GoodKey(key)
    ensures DecodeItem(LabelText(key, value)) == Label(key, value)
  {
    KeyEndAt(key, "=" + value);
    var text := LabelText(key, value);
    assert text == key + ("=" + value);
    assert text[..|key|] == key && text[|key| + 1..] == value;
  }

  lemma DecodeKey(key: string, rest: string, text: string)
    requires GoodKey(key) && rest != "" && rest[0] == ' ' && text == key + rest
    ensures KeyEnd(text) == |key| < |text| && text[0] != '!' && text[..|key|] == key && text[|key|..] == rest
    ensures text[|key|] == ' '
  {
    KeyEndAt(key, rest);
  }

  lemma DecodeValues(prefix: string, values: seq<string>, rest: string)
    requires values != [] && forall i :: 0 <= i < |values| ==> ',' !in values[i]
    requires rest == prefix + Join(values, ",") + ")"
    ensures prefix < rest && ValuesIn(rest, prefix) == values
  {
    assert rest[|prefix|..|rest| - 1] == Join(values, ",");
    SplitJoin(values, ',');
  }

  lemma DecodeIn(m: Requirement)
    requires GoodRequirement(m) && m.operator == OP_IN
    ensures DecodeItem(RequirementText(m)) == Expression(m)
  {
    var rest := " in (" + Join(m.values, ",") + ")";
    assert RequirementText(m) == m.key + rest;
    DecodeKey(m.key, rest, RequirementText(m));
    DecodeValues(" in (", m.values, rest);
  }

  lemma NotInIsNotIn(rest: string)
    requires " notin (" < rest
    ensures !(" in (" < rest)
  {
    assert rest[1] == 'n';
  }

  lemma DecodeNotInText(text: string, m: Requirement)
    requires m.operator == OP_NOT_IN && KeyEnd(text) == |m.key| < |text| && text[0] != '!'
    requires text[..|m.key|] == m.key && text[|m.key|] == ' '
    requires " notin (" < text[|m.key|..] && ValuesIn(text[|m.key|..], " notin (") == m.values
    ensures DecodeItem(text) == Expression(m)
  {
    NotInIsNotIn(text[|m.key|..]);
  }

  lemma DecodeNotIn(m: Requirement)
    requires GoodRequirement(m) && m.operator == OP_NOT_IN
    ensures DecodeItem(RequirementText(m)) == Expression(m)
  {
    var rest := " notin (" + Join(m.values, ",") + ")";
    assert RequirementText(m) == m.key + rest;
    DecodeKey(m.key, rest, RequirementText(m));
    DecodeValues(" notin (", m.values, rest);
    DecodeNotInText(RequirementText(m), m);
  }

  lemma DecodeRequirement(m: Requirement)
    requires GoodRequirement(m)
    ensures DecodeItem(RequirementText(m)) == Expression(Meant(m))
  {
    if m.operator == OP_IN {
      DecodeIn(m);
    } else if m.operator == OP_NOT_IN {
      DecodeNotIn(m);
    } else if m.operator == OP_DOES_NOT_EXIST {
      assert RequirementText(m)[1..] == m.key;
    } else {
      KeyEndAt(m.key, "");
      assert m.key + "" == m.key;
    }
  }

  function LabelsUpTo(labels: map<string, string>, keys: seq<string>, n: nat): map<string, string>
    requires n <= |keys|
  {
    if n == 0 then map[]
    else
      var before, k := LabelsUpTo(labels, keys, n - 1), keys[n - 1];
      if k in labels then before[k := labels[k]] else before
  }

  lemma {:induction false} LabelsUpToMeaning(labels: map<string, string>, keys: seq<string>, n: nat)
    requires n <= |keys|
    ensures var r := LabelsUpTo(labels, keys, n);
            && (forall k :: k in r <==> k in labels && k in keys[..n])
            && (forall k :: k in r ==> r[k] == labels[k])
  {
    if n > 0 {
      LabelsUpToMeaning(labels, keys, n - 1);
      assert keys[..n] == keys[..n - 1] + [keys[n - 1]];
    }
  }

  lemma {:induction false} DecodeLabels(texts: seq<string>, labels: map<string, string>, keys: seq<string>, n: nat)
    requires n <= |keys| <= |texts|
    requires forall i :: 0 <= i < |keys| ==>
             keys[i] in labels && GoodKey(keys[i]) && texts[i] == LabelText(keys[i], labels[keys[i]])
    ensures DecodeUpTo(texts, n) == Selector(LabelsUpTo(labels, keys, n), [])
  {
    if n > 0 {
      DecodeLabels(texts, labels, keys, n - 1);
      DecodeLabel(keys[n - 1], labels[keys[n - 1]]);
    }
  }

  function MeantUpTo(ms: seq<Requirement>, n: nat): (r: seq<Requirement>)
    requires n <= |ms|
    ensures |r| == n && forall i :: 0 <= i < n ==> r[i] == Meant(ms[i])
  {
    if n == 0 then [] else MeantUpTo(ms, n - 1) + [Meant(ms[n - 1])]
  }

  // From position `from` on the texts are those of the expressions.
  ghost predicate ReadBack(texts: seq<string>, from: nat, ms: seq<Requirement>) {
    && |texts| == from + |ms|
    && forall j :: from <= j < |texts| ==> DecodeItem(texts[j]) == Expression(Meant(ms[j - from]))
  }

  lemma {:induction false} DecodeExpressions(texts: seq<string>, from: nat, ms: seq<Requirement>, j: nat)
    requires ReadBack(texts, from, ms) && from <= j <= |texts| && DecodeUpTo(texts, from).matchExpressions == []
    ensures DecodeUpTo(texts, j) == Selector(DecodeUpTo(texts, from).matchLabels, MeantUpTo(ms, j - from))
  {
    if j > from {
      DecodeExpressions(texts, from, ms, j - 1);
      assert DecodeItem(texts[j - 1]) == Expression(Meant(ms[j - 1 - from]));
    }
  }

  // From the list alone the labels and the expressions are recovered.
  lemma RoundTrip(texts: seq<string>, s: Selector, keys: seq<string>)
    requires Lists(texts, s, keys) && GoodSelector(s)
    ensures Decode(texts) == Selector(s.matchLabels, AllMeant(s.matchExpressions))
  {
    DecodedLabels(texts, s, keys);
    DecodedExpressions(texts, s, keys);
    DecodeParts(texts, |keys|, s.matchLabels, s.matchExpressions);
  }

  lemma MeantAll(ms: seq<Requirement>)
    ensures MeantUpTo(ms, |ms|) == AllMeant(ms)
  {
  }

  lemma DecodeParts(texts: seq<string>, from: nat, labels: map<string, string>, ms: seq<Requirement>)
    requires ReadBack(texts, from, ms) && DecodeUpTo(texts, from) == Selector(labels, [])
    ensures Decode(texts) == Selector(labels, AllMeant(ms))
  {
    DecodeExpressions(texts, from, ms, |texts|);
    MeantAll(ms);
  }

  lemma DecodedLabels(texts: seq<string>, s: Selector, keys: seq<string>)
    requires Lists(texts, s, keys) && GoodSelector(s)
    ensures DecodeUpTo(texts, |keys|) == Selector(s.matchLabels, [])
  {
    DecodeLabels(texts, s.matchLabels, keys, |keys|);
    AllLabels(s.matchLabels, keys);
  }

  lemma DecodedExpressions(texts: seq<string>, s: Selector, keys: seq<string>)
    requires Lists(texts, s, keys) && GoodSelector(s)
    ensures ReadBack(texts, |keys|, s.matchExpressions)
  {
    var ms := s.matchExpressions;
    forall j | |keys| <= j < |texts|
      ensures DecodeItem(texts[j]) == Expression(Meant(ms[j - |keys|]))
    {
      assert texts[|keys| + (j - |keys|)] == RequirementText(ms[j - |keys|]);
      DecodeRequirement(ms[j - |keys|]);
    }
  }

  lemma AllLabels(labels: map<string, string>, keys: seq<string>)
    requires SortedKeysOf(keys, labels.Keys)
    ensures LabelsUpTo(labels, keys, |keys|) == labels
  {
    LabelsUpToMeaning(labels, keys, |keys|);
    assert keys[..|keys|] == keys;
  }

  // So two selectors with the same list ask for the same.
  lemma ListIsInjective(texts: seq<string>, s: Selector, t: Selector, keysOfS: seq<string>, keysOfT: seq<string>)
    requires Lists(texts, s, keysOfS) && GoodSelector(s) && Lists(texts, t, keysOfT) && GoodSelector(t)
    ensures s.matchLabels == t.matchLabels && AllMeant(s.matchExpressions) == AllMeant(t.matchExpressions)
  {
    RoundTrip(texts, s, keysOfS);
    RoundTrip(texts, t, keysOfT);
  }

  // The list is determined by the selector, whatever order the map yields its keys in.
  lemma ListIsDetermined(texts: seq<string>, texts': seq<string>, s: Selector, keys: seq<string>, keys': seq<string>)
    requires Lists(texts, s, keys) && Lists(texts', s, keys')
    ensures texts == texts'
  {
    SortedUnique(keys, keys', s.matchLabels.Keys);
    forall i | 0 <= i < |texts|
      ensures texts[i] == texts'[i]
    {
      if i >= |keys| {
        var text := RequirementText(s.matchExpressions[i - |keys|]);
        assert texts[|keys| + (i - |keys|)] == text == texts'[|keys| + (i - |keys|)];
      }
    }
  }

  // Outside these conditions different entries print alike: an empty value list, an unknown operator, a key
  // that begins with an exclamation mark or holds a space or an equals sign, and a value with a comma.
  lemma AlikeInPrint(key: string, values: seq<string>)
    ensures RequirementText(Requirement(key, OP_IN, [])) == RequirementText(Requirement(key, OP_IN, [""]))
    ensures RequirementText(Requirement(key, "Gt", values)) == RequirementText(Requirement(key, OP_EXISTS, values))
    ensures RequirementText(Requirement("!" + key, OP_EXISTS, [])) ==
            RequirementText(Requirement(key, OP_DOES_NOT_EXIST, []))
    ensures RequirementText(Requirement(key + " in (a)", OP_EXISTS, [])) ==
            RequirementText(Requirement(key, OP_IN, ["a"]))
    ensures LabelText(key + "=b", "c") == LabelText(key, "b=c")
    ensures RequirementText(Requirement(key, OP_IN, ["a,b"])) == RequirementText(Requirement(key, OP_IN, ["a", "b"]))
  {
    assert Join(["a", "b"], ",") == "a" + "," + "b" == "a,b";
    assert key + " in (a)" == key + " in (" + "a" + ")";
  }
}
