/** Column lists as they are typed: what a list of names, additions, removals and the star is parsed to. */
module ColumnTexts {
  import opened Wrappers
  import opened Text
  import opened Columns
  import opened ColumnTheorems

  // What may stand between two commas: a column, one to be added to the defaults, one to be removed from them,
  // or the place of the defaults.
  datatype Item = Name(col: string) | Add(col: string) | Drop(col: string) | Defaults

  function Spelled(item: Item): string {
    match item
    case Name(col) => col
    case Add(col) => "+" + TrimSpace(col)
    case Drop(col) => "-" + TrimSpace(col)
    case Defaults => "*"
  }

  function SpelledAll(items: seq<Item>): (parts: seq<string>)
    ensures |parts| == |items| && forall i :: 0 <= i < |items| ==> parts[i] == Spelled(items[i])
  {
    seq(|items|, i requires 0 <= i < |items| => Spelled(items[i]))
  }

  ghost predicate ItemsOf(items: seq<Item>, validCols: seq<string>) {
    forall i :: 0 <= i < |items| ==> items[i].Defaults? || items[i].col in validCols
  }

  // ---------- how an item is read ----------

  function KindOfItem(item: Item): Kind {
    match item
    case Name(col) => Plain(KeyOf(col))
    case Add(col) => Plus(KeyOf(col))
    case Drop(col) => Minus(KeyOf(col))
    case Defaults => Star
  }

  lemma {:induction false} TrimRightEnds(s: string)
    ensures TrimRight(s) == [] || !IsSpace(TrimRight(s)[|TrimRight(s)| - 1])
    decreases |s|
  {
    if s != [] && IsSpace(s[|s| - 1]) {
      TrimRightEnds(s[..|s| - 1]);
    }
  }

  lemma SignedIsTrimmed(sign: char, col: string)
    requires !IsSpace(sign)
    ensures TrimSpace([sign] + TrimSpace(col)) == [sign] + TrimSpace(col)
  {
    var t := [sign] + TrimSpace(col);
    TrimRightEnds(TrimLeft(col));
    assert TrimLeft(t) == t;
    assert !IsSpace(t[|t| - 1]);
  }

  lemma ReadsItem(validCols: seq<string>, item: Item)
    requires GoodNames(validCols) && (item.Defaults? || item.col in validCols)
    ensures var token := TrimSpace(Spelled(item)); token != "" && KindOf(token) == KindOfItem(item)
    ensures !item.Defaults? ==> KeyOf(item.col) in Table(validCols) && Table(validCols)[KeyOf(item.col)] == item.col
  {
    if !item.Defaults? {
      PlainKind(validCols, item.col);
      LowerTrim(item.col);
    }
    match item
    case Name(col) =>
    case Add(col) =>
      SignedIsTrimmed('+', col);
      assert Spelled(item)[1..] == TrimSpace(col);
    case Drop(col) =>
      SignedIsTrimmed('-', col);
      assert Spelled(item)[1..] == TrimSpace(col);
    case Defaults =>
  }

  // ---------- what the items ask for ----------

  // The columns named before the star, or behind it, in their order.
  function Named(items: seq<Item>, behind: bool): seq<string> {
    if items == [] then []
    else
      var front, last := items[..|items| - 1], items[|items| - 1];
      Named(front, behind) +
      (if (last.Name? || last.Add?) && (Defaults in front) == behind then [last.col] else [])
  }

  predicate AsksForDefaults(items: seq<Item>) {
    exists item :: item in items && !item.Name?
  }

  ghost predicate OneStar(items: seq<Item>) {
    forall i, j :: 0 <= i < j < |items| ==> !(items[i].Defaults? && items[j].Defaults?)
  }

  // The items are read as these kinds, and the kinds ask for what the items ask for.
  ghost predicate ReadAs(table: map<string, string>, items: seq<Item>, ks: seq<Kind>) {
    && |ks| == |items| && (forall i :: 0 <= i < |ks| ==> Known(table, ks[i]) && ks[i] == KindOfItem(items[i]))
    && Explicit(table, ks, false) == Named(items, false) && Explicit(table, ks, true) == Named(items, true)
    && (WantsDefaults(ks) <==> AsksForDefaults(items))
    && (forall c :: c in Removed(table, ks) <==> Drop(c) in items)
  }

  lemma NamedAppended(items: seq<Item>, item: Item, behind: bool)
    ensures Named(items + [item], behind) ==
            Named(items, behind) +
            (if (item.Name? || item.Add?) && (Defaults in items) == behind then [item.col] else [])
  {
    assert (items + [item])[..|items|] == items;
  }

  lemma AskedAppended(items: seq<Item>, item: Item)
    ensures AsksForDefaults(items + [item]) <==> AsksForDefaults(items) || !item.Name?
    ensures forall c :: Drop(c) in items + [item] <==> Drop(c) in items || item == Drop(c)
  {
    assert forall x :: x in items + [item] <==> x in items || x == item;
  }

  lemma OneMoreItem(table: map<string, string>, items: seq<Item>, ks: seq<Kind>, item: Item)
    requires ReadAs(table, items, ks) && Known(table, KindOfItem(item))
    requires !item.Defaults? ==> KeyOf(item.col) in table && table[KeyOf(item.col)] == item.col
    ensures ReadAs(table, items + [item], ks + [KindOfItem(item)])
  {
    var k := KindOfItem(item);
    ExplicitAppended(table, ks, k, false);
    ExplicitAppended(table, ks, k, true);
    RemovedAppended(table, ks, k);
    NamedAppended(items, item, false);
    NamedAppended(items, item, true);
    AskedAppended(items, item);
    SameStars(items, ks);
  }

  lemma SameStars(items: seq<Item>, ks: seq<Kind>)
    requires |ks| == |items| && forall i :: 0 <= i < |ks| ==> ks[i] == KindOfItem(items[i])
    ensures Star in ks <==> Defaults in items
  {
    if Star in ks {
      var i :| 0 <= i < |ks| && ks[i] == Star;
      assert items[i] == Defaults;
    }
    if Defaults in items {
      var i :| 0 <= i < |items| && items[i] == Defaults;
      assert ks[i] == Star;
    }
  }

  lemma OneMoreKind(parts: seq<string>, part: string)
    requires TrimSpace(part) != ""
    ensures Kinds(Tokens(parts + [part])) == Kinds(Tokens(parts)) + [KindOf(TrimSpace(part))]
  {
    var all := parts + [part];
    KindsOneMore(all, |parts|);
    assert all[..|parts|] == parts && all[..|parts| + 1] == all;
  }

  // What has been read of the items so far.
  function KindsRead(items: seq<Item>): seq<Kind> {
    Kinds(Tokens(SpelledAll(items)))
  }

  lemma NextItemIsRead(validCols: seq<string>, front: seq<Item>, last: Item)
    requires GoodNames(validCols) && (last.Defaults? || last.col in validCols)
    requires ReadAs(Table(validCols), front, KindsRead(front))
    ensures ReadAs(Table(validCols), front + [last], KindsRead(front + [last]))
  {
    ReadsItem(validCols, last);
    OneMoreKind(SpelledAll(front), Spelled(last));
    assert SpelledAll(front + [last]) == SpelledAll(front) + [Spelled(last)];
    OneMoreItem(Table(validCols), front, KindsRead(front), last);
  }

  ghost predicate ReadUpTo(validCols: seq<string>, items: seq<Item>, n: nat)
    requires n <= |items|
  {
    ReadAs(Table(validCols), items[..n], KindsRead(items[..n]))
  }

  lemma ReadOneMore(validCols: seq<string>, items: seq<Item>, n: nat)
    requires GoodNames(validCols) && ItemsOf(items, validCols) && n < |items| && ReadUpTo(validCols, items, n)
    ensures ReadUpTo(validCols, items, n + 1)
  {
    assert items[..n] + [items[n]] == items[..n + 1];
    NextItemIsRead(validCols, items[..n], items[n]);
  }

  lemma {:induction false} ItemsUpTo(validCols: seq<string>, items: seq<Item>, n: nat)
    requires GoodNames(validCols) && ItemsOf(items, validCols) && n <= |items|
    ensures ReadUpTo(validCols, items, n)
  {
    if n == 0 {
      NothingIsRead(Table(validCols));
    } else {
      ItemsUpTo(validCols, items, n - 1);
      ReadOneMore(validCols, items, n - 1);
    }
  }

  lemma ItemsAreRead(validCols: seq<string>, items: seq<Item>)
    requires GoodNames(validCols) && ItemsOf(items, validCols)
    ensures ReadAs(Table(validCols), items, KindsRead(items))
  {
    ItemsUpTo(validCols, items, |items|);
    assert items[..|items|] == items;
  }

  lemma NothingIsRead(table: map<string, string>)
    ensures ReadAs(table, [], KindsRead([]))
  {
    assert SpelledAll([]) == [];
  }

  lemma AcceptedIffOneStar(table: map<string, string>, items: seq<Item>, ks: seq<Kind>)
    requires ReadAs(table, items, ks)
    ensures Acceptable(table, ks, |ks|) <==> OneStar(items)
    ensures forall n, error :: Offends(table, ks, n, error) ==> error == DuplicateStar
  {
  }

  lemma NoCommas(validCols: seq<string>, items: seq<Item>)
    requires GoodNames(validCols) && ItemsOf(items, validCols)
    ensures forall i :: 0 <= i < |items| ==> ',' !in Spelled(items[i])
  {
    forall i | 0 <= i < |items|
      ensures ',' !in Spelled(items[i])
    {
      if !items[i].Defaults? {
        var j :| 0 <= j < |validCols| && validCols[j] == items[i].col;
        assert PlainName(validCols[j]);
        TrimmedFrom(items[i].col);
      }
    }
  }

  lemma {:induction false} TrimLeftFrom(s: string)
    ensures forall c :: c in TrimLeft(s) ==> c in s
  {
    if s != [] && IsSpace(s[0]) {
      TrimLeftFrom(s[1..]);
    }
  }

  lemma {:induction false} TrimRightFrom(s: string)
    ensures forall c :: c in TrimRight(s) ==> c in s
    decreases |s|
  {
    if s != [] && IsSpace(s[|s| - 1]) {
      TrimRightFrom(s[..|s| - 1]);
    }
  }

  lemma TrimmedFrom(s: string)
    ensures forall c :: c in TrimSpace(s) ==> c in s
  {
    TrimLeftFrom(s);
    TrimRightFrom(TrimLeft(s));
  }

  // ---------- what is shown ----------

  // Columns of a list, in its order and without repetition.
  ghost predicate Picked(extra: seq<string>, more: seq<string>) {
    NoDuplicates(extra) && InOrder(extra, more)
  }

  lemma AppendedNew(base: seq<string>, more: seq<string>, skip: set<string>) returns (extra: seq<string>)
    ensures AppendNew(base, more, skip) == base + extra && Picked(extra, more)
    ensures forall c :: c in extra <==> c in more && c !in skip && c !in base
  {
    AppendNewMeaning(base, more, skip);
    AppendNewInOrder(base, more, skip);
    extra := AppendNew(base, more, skip)[|base|..];
  }

  // The columns named before the star, then the defaults that are wanted, not dropped and not named before it, then
  // those named behind it that are not there yet; or the defaults, when that leaves nothing.
  ghost predicate IsShown(items: seq<Item>, defaultCols: seq<string>, cols: seq<string>, fromDefaults: seq<string>,
                          fromLater: seq<string>) {
    var before, after := Named(items, false), Named(items, true);
    var all := before + fromDefaults + fromLater;
    && cols == (if all == [] then defaultCols else all)
    && Picked(fromDefaults, defaultCols) && Picked(fromLater, after)
    && (forall c :: c in fromDefaults <==>
          c in defaultCols && AsksForDefaults(items) && Drop(c) !in items && c !in before)
    && (forall c :: c in fromLater <==> c in after && c !in before && c !in fromDefaults)
  }

  lemma ShownFromItems(table: map<string, string>, items: seq<Item>, ks: seq<Kind>, defaultCols: seq<string>)
    returns (fromDefaults: seq<string>, fromLater: seq<string>)
    requires ReadAs(table, items, ks)
    ensures IsShown(items, defaultCols, Shown(table, ks, defaultCols), fromDefaults, fromLater)
  {
    var before, after := Named(items, false), Named(items, true);
    fromDefaults := [];
    if WantsDefaults(ks) {
      fromDefaults := AppendedNew(before, defaultCols, Removed(table, ks));
    } else {
      var at: seq<nat> := [];
      assert Places(at, fromDefaults, defaultCols);
      assert before + fromDefaults == before;
    }
    fromLater := AppendedNew(before + fromDefaults, after, {});
    assert Merged(table, ks, defaultCols) == before + fromDefaults + fromLater;
  }

  // The items as they are typed, with commas between them, are parsed to what they ask for; two stars are refused.
  lemma TypedItemsAreParsed(text: string, items: seq<Item>, validCols: seq<string>, defaultCols: seq<string>)
    returns (fromDefaults: seq<string>, fromLater: seq<string>)
    requires GoodNames(validCols) && items != [] && ItemsOf(items, validCols) && text == Join(SpelledAll(items), ",")
    ensures var table, ks := Table(validCols), Kinds(Tokens(Split(text, ',')));
            && (Acceptable(table, ks, |ks|) <==> OneStar(items))
            && (forall n, error :: Offends(table, ks, n, error) ==> error == DuplicateStar)
            && IsShown(items, defaultCols, Shown(table, ks, defaultCols), fromDefaults, fromLater)
  {
    var table, parts := Table(validCols), SpelledAll(items);
    NoCommas(validCols, items);
    SplitJoin(parts, ',');
    ItemsAreRead(validCols, items);
    AcceptedIffOneStar(table, items, Kinds(Tokens(parts)));
    fromDefaults, fromLater := ShownFromItems(table, items, Kinds(Tokens(parts)), defaultCols);
  }

  method ParseItems(text: string, ghost items: seq<Item>, validCols: seq<string>, defaultCols: seq<string>)
    returns (r: Result<seq<string>, ParseError>, ghost fromDefaults: seq<string>, ghost fromLater: seq<string>)
    requires GoodNames(validCols) && items != [] && ItemsOf(items, validCols) && text == Join(SpelledAll(items), ",")
    ensures r.Success? <==> OneStar(items)
    ensures r.Failure? ==> r.error == DuplicateStar
    ensures r.Success? ==> IsShown(items, defaultCols, r.value, fromDefaults, fromLater)
  {
    fromDefaults, fromLater := TypedItemsAreParsed(text, items, validCols, defaultCols);
    r := ParseColumns(text, validCols, defaultCols);
  }

  // The columns are those of the list but c, or all of them: each once, and in its order.
  ghost predicate AllBut(cols: seq<string>, defaultCols: seq<string>, c: string) {
    Picked(cols, defaultCols) && forall x :: x in cols <==> x in defaultCols && x != c
  }

  ghost predicate AllOnce(cols: seq<string>, defaultCols: seq<string>) {
    Picked(cols, defaultCols) && forall x :: x in cols <==> x in defaultCols
  }

  // "-column" shows the other defaults, or all of them when there are no others.
  method ParseRemoval(c: string, validCols: seq<string>, defaultCols: seq<string>)
    returns (r: Result<seq<string>, ParseError>)
    requires GoodNames(validCols) && c in validCols
    ensures r.Success?
    ensures if forall x :: x in defaultCols ==> x == c then r.value == defaultCols
            else AllBut(r.value, defaultCols, c)
  {
    ghost var others, later;
    r, others, later := ParseItems("-" + TrimSpace(c), [Drop(c)], validCols, defaultCols);
    OneAsks(Drop(c));
    NothingLater([Drop(c)], defaultCols, r.value, others, later);
    assert AllBut(others, defaultCols, c);
    TwoMembers(others);
  }

  // "+column" shows that column, and then the other defaults.
  method ParseAddition(c: string, validCols: seq<string>, defaultCols: seq<string>)
    returns (r: Result<seq<string>, ParseError>)
    requires GoodNames(validCols) && c in validCols
    ensures r.Success? && r.value != [] && r.value[0] == c && AllBut(r.value[1..], defaultCols, c)
  {
    ghost var others, later;
    r, others, later := ParseItems("+" + TrimSpace(c), [Add(c)], validCols, defaultCols);
    OneAsks(Add(c));
    NothingLater([Add(c)], defaultCols, r.value, others, later);
    assert AllBut(others, defaultCols, c);
    assert r.value == [c] + others && r.value[1..] == others;
  }

  // "*,column" shows the defaults, each once, and then that column unless it is one of them.
  method ParseBehindStar(c: string, validCols: seq<string>, defaultCols: seq<string>)
    returns (r: Result<seq<string>, ParseError>)
    requires GoodNames(validCols) && c in validCols
    ensures r.Success?
    ensures if c in defaultCols
            then AllOnce(r.value, defaultCols)
            else r.value != [] && r.value[|r.value| - 1] == c && AllOnce(r.value[..|r.value| - 1], defaultCols)
  {
    ghost var defaults, later;
    StarIsTyped(c);
    r, defaults, later := ParseItems("*," + c, [Defaults, Name(c)], validCols, defaultCols);
    StarAsks(c);
    StarColumns(c, defaultCols, r.value, defaults, later);
  }

  lemma OneAsks(item: Item)
    requires item.Drop? || item.Add?
    ensures AsksForDefaults([item]) && Named([item], true) == []
    ensures Named([item], false) == if item.Add? then [item.col] else []
    ensures forall x :: x in Named([item], false) <==> item == Add(x)
    ensures forall x :: Drop(x) in [item] <==> item == Drop(x)
  {
    NamedByOne(item);
    assert item in [item];
  }

  lemma StarAsks(c: string)
    ensures var items := [Defaults, Name(c)];
            && AsksForDefaults(items) && Named(items, false) == [] && Named(items, true) == [c]
            && forall x :: Drop(x) !in items
  {
    var items := [Defaults, Name(c)];
    NamedBehindStar(c);
    assert items[0] == Defaults;
  }

  lemma StarColumns(c: string, defaultCols: seq<string>, cols: seq<string>, defaults: seq<string>, later: seq<string>)
    requires Picked(later, [c]) && forall x :: x in later <==> x in [c] && x !in defaults
    requires Picked(defaults, defaultCols) && forall x :: x in defaults <==> x in defaultCols
    requires var all := [] + defaults + later; cols == if all == [] then defaultCols else all
    ensures if c in defaultCols then AllOnce(cols, defaultCols)
            else cols != [] && cols[|cols| - 1] == c && AllOnce(cols[..|cols| - 1], defaultCols)
  {
    OneOrNone(later, c);
    assert c in [c];
    assert [] + defaults + later == defaults + later && defaults + [] == defaults;
    if c in defaultCols {
      assert c in defaults;
    } else {
      assert (defaults + [c])[..|defaults|] == defaults;
    }
  }

  lemma NothingLater(items: seq<Item>, defaultCols: seq<string>, cols: seq<string>, fromDefaults: seq<string>,
                     later: seq<string>)
    requires IsShown(items, defaultCols, cols, fromDefaults, later) && Named(items, true) == []
    ensures var all := Named(items, false) + fromDefaults; cols == if all == [] then defaultCols else all
    ensures Named(items, false) == [] ==> cols == if fromDefaults == [] then defaultCols else fromDefaults
  {
    TwoMembers(later);
    assert later == [];
    assert Named(items, false) + fromDefaults + [] == Named(items, false) + fromDefaults;
    assert [] + fromDefaults == fromDefaults;
  }

  // "*,*" is refused.
  method ParseTwoStars(validCols: seq<string>, defaultCols: seq<string>) returns (r: Result<seq<string>, ParseError>)
    requires GoodNames(validCols)
    ensures r == Failure(DuplicateStar)
  {
    ghost var fromDefaults, fromLater;
    assert [Defaults, Defaults][0].Defaults? && [Defaults, Defaults][1].Defaults?;
    r, fromDefaults, fromLater := ParseItems("*,*", [Defaults, Defaults], validCols, defaultCols);
  }

  lemma NamedByOne(item: Item)
    ensures Named([item], false) == (if item.Name? || item.Add? then [item.col] else []) && Named([item], true) == []
  {
    assert [item][..0] == [];
  }

  lemma NamedBehindStar(c: string)
    ensures Named([Defaults, Name(c)], false) == [] && Named([Defaults, Name(c)], true) == [c]
  {
    var items := [Defaults, Name(c)];
    assert items[..1] == [Defaults] && Defaults in items[..1];
    NamedByOne(Defaults);
    assert Named(items, true) == Named(items[..1], true) + [c];
  }

  lemma TwoMembers(s: seq<string>)
    ensures s == [] || s[0] in s
    ensures |s| <= 1 || s[1] in s
  {
  }

  lemma StarIsTyped(c: string)
    ensures "*," + c == Join(SpelledAll([Defaults, Name(c)]), ",")
  {
    assert SpelledAll([Defaults, Name(c)]) == ["*", c];
  }

  lemma OneOrNone(cols: seq<string>, c: string)
    requires NoDuplicates(cols) && forall x :: x in cols ==> x == c
    ensures cols == if c in cols then [c] else []
  {
    TwoMembers(cols);
  }

  // The name in a token, without the sign in front of it.
  function NameIn(token: string): string {
    if token != "" && (token[0] == '+' || token[0] == '-') then token[1..] else token
  }

  // Tokens are accepted exactly when each is the star or names a valid column, in any case of letters, and no two
  // are stars.
  lemma AcceptedTokens(validCols: seq<string>, tokens: seq<string>)
    ensures Acceptable(Table(validCols), Kinds(tokens), |tokens|) <==>
              && (forall i :: 0 <= i < |tokens| ==>
                    || tokens[i] == "*"
                    || exists c :: c in validCols && TrimSpace(ToLower(c)) == ToLower(NameIn(tokens[i])))
              && (forall i, j :: 0 <= i < j < |tokens| ==> !(tokens[i] == "*" && tokens[j] == "*"))
  {
    var table := Table(validCols);
    forall key: string
      ensures key in table <==> exists c :: c in validCols && TrimSpace(ToLower(c)) == key
    {
      TableKeys(validCols, key);
    }
    forall i | 0 <= i < |tokens|
      ensures Kinds(tokens)[i].Star? <==> tokens[i] == "*"
      ensures !Kinds(tokens)[i].Star? ==> Kinds(tokens)[i].key == ToLower(NameIn(tokens[i]))
    {
      KindNames(tokens[i]);
    }
  }

  lemma KindNames(token: string)
    ensures KindOf(token).Star? <==> token == "*"
    ensures !KindOf(token).Star? ==> KindOf(token).key == ToLower(NameIn(token))
  {
  }

  lemma {:induction false} TableKeys(validCols: seq<string>, key: string)
    ensures key in Table(validCols) <==> exists c :: c in validCols && TrimSpace(ToLower(c)) == key
  {
    if validCols != [] {
      var front, last := validCols[..|validCols| - 1], validCols[|validCols| - 1];
      TableKeys(front, key);
      assert Table(validCols) == Table(front)[KeyOf(last) := last] && last in validCols;
      assert forall c :: c in validCols <==> c in front || c == last by {
        assert validCols == front + [last];
      }
    }
  }
}
