/** What the column parser promises about its result. */
module ColumnTheorems {
  import opened Wrappers
  import opened Text
  import opened Columns

  ghost predicate NoDuplicates(cols: seq<string>) {
    forall i, j :: 0 <= i < j < |cols| ==> cols[i] != cols[j]
  }

  // The columns of more that come through: in their order, the first time they occur.
  ghost predicate InOrder(extra: seq<string>, more: seq<string>) {
    exists at: seq<nat> :: Places(at, extra, more)
  }

  ghost predicate Places(at: seq<nat>, extra: seq<string>, more: seq<string>) {
    && |at| == |extra|
    && (forall i :: 0 <= i < |at| ==> at[i] < |more| && more[at[i]] == extra[i])
    && (forall i, j :: 0 <= i < j < |at| ==> at[i] < at[j])
  }

  // AppendNew keeps base, and adds without repetition exactly those of more that are neither skipped nor
  // in base.
  lemma {:induction false} AppendNewMeaning(base: seq<string>, more: seq<string>, skip: set<string>)
    ensures base <= AppendNew(base, more, skip)
    ensures var extra := AppendNew(base, more, skip)[|base|..];
            NoDuplicates(extra) && forall c :: c in extra <==> c in more && c !in skip && c !in base
  {
    if more != [] {
      var rest, c := more[..|more| - 1], more[|more| - 1];
      AppendNewMeaning(base, rest, skip);
      var sofar := AppendNew(base, rest, skip);
      var extra := sofar[|base|..];
      assert forall x :: x in more <==> x in rest || x == c by {
        assert more == rest + [c];
      }
      assert sofar == base + extra;
      if c !in skip && c !in sofar {
        assert AppendNew(base, more, skip)[|base|..] == extra + [c];
      }
    }
  }

  // It adds them in their order.
  lemma {:induction false} AppendNewInOrder(base: seq<string>, more: seq<string>, skip: set<string>)
    ensures base <= AppendNew(base, more, skip) && InOrder(AppendNew(base, more, skip)[|base|..], more)
  {
    if more == [] {
      var at: seq<nat> := [];
      assert Places(at, AppendNew(base, more, skip)[|base|..], more);
    } else {
      var rest, c := more[..|more| - 1], more[|more| - 1];
      AppendNewInOrder(base, rest, skip);
      var sofar := AppendNew(base, rest, skip);
      OneMoreInOrder(sofar[|base|..], rest, c);
      assert more == rest + [c];
      if c !in skip && c !in sofar {
        assert AppendNew(base, more, skip)[|base|..] == sofar[|base|..] + [c];
      }
    }
  }

  lemma OneMoreInOrder(extra: seq<string>, rest: seq<string>, c: string)
    requires InOrder(extra, rest)
    ensures InOrder(extra, rest + [c]) && InOrder(extra + [c], rest + [c])
  {
    var at: seq<nat> :| Places(at, extra, rest);
    assert Places(at, extra, rest + [c]);
    assert Places(at + [|rest|], extra + [c], rest + [c]);
  }

  lemma AppendNewDuplicates(base: seq<string>, more: seq<string>, skip: set<string>)
    ensures NoDuplicates(AppendNew(base, more, skip)) <==> NoDuplicates(base)
  {
    AppendNewMeaning(base, more, skip);
    var all := AppendNew(base, more, skip);
    var extra := all[|base|..];
    assert all == base + extra;
    assert forall i :: 0 <= i < |base| ==> all[i] == base[i];
    if NoDuplicates(base) {
      forall i, j | 0 <= i < j < |all|
        ensures all[i] != all[j]
      {
        if j >= |base| {
          assert all[j] == extra[j - |base|];
          assert extra[j - |base|] in extra;
          if i >= |base| {
            assert all[i] == extra[i - |base|];
          }
        }
      }
    }
  }

  // The columns shown are free of duplicates exactly when the explicit ones before the star are (or,
  // when there is nothing else to show, the defaults).
  lemma DuplicateFree(table: map<string, string>, ks: seq<Kind>, defaultCols: seq<string>)
    ensures NoDuplicates(Shown(table, ks, defaultCols)) <==>
              if Merged(table, ks, defaultCols) == [] then NoDuplicates(defaultCols)
              else NoDuplicates(Explicit(table, ks, false))
  {
    var before := Explicit(table, ks, false);
    var withDefaults := if WantsDefaults(ks) then AppendNew(before, defaultCols, Removed(table, ks)) else before;
    AppendNewDuplicates(before, defaultCols, Removed(table, ks));
    AppendNewDuplicates(withDefaults, Explicit(table, ks, true), {});
  }

  lemma AppendNewMembers(base: seq<string>, more: seq<string>, skip: set<string>, c: string)
    ensures c in AppendNew(base, more, skip) <==> c in base || (c in more && c !in skip)
  {
    AppendNewMeaning(base, more, skip);
    var all := AppendNew(base, more, skip);
    assert all == base + all[|base|..];
  }

  // Which columns are shown when there is anything to show.
  lemma ShownColumns(table: map<string, string>, ks: seq<Kind>, defaultCols: seq<string>, c: string)
    ensures c in Merged(table, ks, defaultCols) <==>
              || c in Explicit(table, ks, false)
              || (WantsDefaults(ks) && c in defaultCols && c !in Removed(table, ks))
              || c in Explicit(table, ks, true)
  {
    var before := Explicit(table, ks, false);
    var withDefaults := if WantsDefaults(ks) then AppendNew(before, defaultCols, Removed(table, ks)) else before;
    AppendNewMembers(before, defaultCols, Removed(table, ks), c);
    AppendNewMembers(withDefaults, Explicit(table, ks, true), {}, c);
  }

  lemma AppendNewExtra(base: seq<string>, more: seq<string>, skip: set<string>) returns (extra: seq<string>)
    ensures AppendNew(base, more, skip) == base + extra && InOrder(extra, more)
  {
    AppendNewInOrder(base, more, skip);
    extra := AppendNew(base, more, skip)[|base|..];
  }

  // The explicit columns before the star come first, as given, and then those of the defaults and the
  // explicit ones after the star that are new, each in their order.
  lemma ShownOrder(table: map<string, string>, ks: seq<Kind>, defaultCols: seq<string>)
    ensures exists fromDefaults: seq<string>, fromLater: seq<string> ::
              && Merged(table, ks, defaultCols) == Explicit(table, ks, false) + fromDefaults + fromLater
              && InOrder(fromDefaults, defaultCols) && InOrder(fromLater, Explicit(table, ks, true))
  {
    var before := Explicit(table, ks, false);
    var fromDefaults: seq<string> := [];
    if WantsDefaults(ks) {
      fromDefaults := AppendNewExtra(before, defaultCols, Removed(table, ks));
    } else {
      var at: seq<nat> := [];
      assert Places(at, fromDefaults, defaultCols);
    }
    var fromLater := AppendNewExtra(before + fromDefaults, Explicit(table, ks, true), {});
    assert before + [] == before;
    assert Merged(table, ks, defaultCols) == before + fromDefaults + fromLater;
  }

  // ---------- round trip ----------

  ghost predicate PlainName(c: string) {
    var t := TrimSpace(c);
    ',' !in c && t != "" && t[0] != '+' && t[0] != '-' && t != "*"
  }

  // Column names as a command defines them: distinct after trimming and case folding, and none of them
  // read as something else.
  ghost predicate GoodNames(validCols: seq<string>) {
    && (forall i :: 0 <= i < |validCols| ==> PlainName(validCols[i]))
    && (forall i, j :: 0 <= i < j < |validCols| ==> KeyOf(validCols[i]) != KeyOf(validCols[j]))
  }

  lemma {:induction false} TableHas(validCols: seq<string>, c: string)
    requires forall i, j :: 0 <= i < j < |validCols| ==> KeyOf(validCols[i]) != KeyOf(validCols[j])
    requires c in validCols
    ensures KeyOf(c) in Table(validCols) && Table(validCols)[KeyOf(c)] == c
  {
    var last := |validCols| - 1;
    if c != validCols[last] {
      assert c in validCols[..last];
      TableHas(validCols[..last], c);
      var i :| 0 <= i < last && validCols[i] == c;
      assert KeyOf(validCols[i]) != KeyOf(validCols[last]);
    }
  }

  // The name is read as a plain column, and as itself.
  ghost predicate ReadsAsItself(table: map<string, string>, c: string) {
    TrimSpace(c) != "" && KindOf(TrimSpace(c)) == Plain(KeyOf(c)) && KeyOf(c) in table && table[KeyOf(c)] == c
  }

  lemma PlainKind(validCols: seq<string>, c: string)
    requires GoodNames(validCols) && c in validCols
    ensures ReadsAsItself(Table(validCols), c)
  {
    assert PlainName(c);
    LowerTrim(c);
    TableHas(validCols, c);
  }

  ghost predicate AllPlain(table: map<string, string>, ks: seq<Kind>) {
    forall i :: 0 <= i < |ks| ==> ks[i].Plain? && ks[i].key in table
  }

  ghost predicate ReadAsGiven(table: map<string, string>, ks: seq<Kind>, cols: seq<string>) {
    |ks| == |cols| && AllPlain(table, ks) && Explicit(table, ks, false) == cols && Explicit(table, ks, true) == []
  }

  lemma OneMorePlain(table: map<string, string>, ks: seq<Kind>, k: Kind, cols: seq<string>)
    requires ReadAsGiven(table, ks, cols) && k.Plain? && k.key in table
    ensures ReadAsGiven(table, ks + [k], cols + [table[k.key]])
  {
    assert (ks + [k])[..|ks|] == ks && Star !in ks;
  }

  lemma PlainNext(table: map<string, string>, rest: seq<string>, c: string)
    requires ReadAsGiven(table, Kinds(Tokens(rest)), rest) && ReadsAsItself(table, c)
    ensures ReadAsGiven(table, Kinds(Tokens(rest + [c])), rest + [c])
  {
    var cols := rest + [c];
    KindsOneMore(cols, |rest|);
    assert cols[..|rest| + 1] == cols && cols[..|rest|] == rest;
    OneMorePlain(table, Kinds(Tokens(rest)), Plain(KeyOf(c)), rest);
  }

  lemma {:induction false} PlainUpTo(table: map<string, string>, cols: seq<string>, n: nat)
    requires n <= |cols|
    requires forall c {:trigger ReadsAsItself(table, c)} :: c in cols ==> ReadsAsItself(table, c)
    ensures ReadAsGiven(table, Kinds(Tokens(cols[..n])), cols[..n])
  {
    if n > 0 {
      PlainUpTo(table, cols, n - 1);
      var rest, c := cols[..n - 1], cols[n - 1];
      assert c in cols;
      assert cols[..n] == rest + [c];
      PlainNext(table, rest, c);
    }
  }

  lemma PlainColumns(table: map<string, string>, cols: seq<string>)
    requires forall c :: c in cols ==> ReadsAsItself(table, c)
    ensures ReadAsGiven(table, Kinds(Tokens(cols)), cols)
  {
    PlainUpTo(table, cols, |cols|);
    assert cols[..|cols|] == cols;
  }

  lemma PlainIsShown(table: map<string, string>, ks: seq<Kind>, defaultCols: seq<string>)
    requires AllPlain(table, ks) && Explicit(table, ks, false) != [] && Explicit(table, ks, true) == []
    ensures Acceptable(table, ks, |ks|) && Shown(table, ks, defaultCols) == Explicit(table, ks, false)
  {
  }

  // Joining any list of valid column names with commas and parsing it gives the list back.
  lemma ParseOfJoin(validCols: seq<string>, cols: seq<string>, defaultCols: seq<string>)
    requires GoodNames(validCols) && cols != [] && forall i :: 0 <= i < |cols| ==> cols[i] in validCols
    ensures var table, ks := Table(validCols), Kinds(Tokens(Split(Join(cols, ","), ',')));
            Acceptable(table, ks, |ks|) && Shown(table, ks, defaultCols) == cols
  {
    forall c | c in cols
      ensures ',' !in c && ReadsAsItself(Table(validCols), c)
    {
      var i :| 0 <= i < |cols| && cols[i] == c;
      assert c in validCols;
      var j :| 0 <= j < |validCols| && validCols[j] == c;
      assert PlainName(validCols[j]);
      PlainKind(validCols, c);
    }
    SplitJoin(cols, ',');
    PlainColumns(Table(validCols), cols);
    PlainIsShown(Table(validCols), Kinds(Tokens(cols)), defaultCols);
  }

  method RoundTrip(validCols: seq<string>, cols: seq<string>, defaultCols: seq<string>)
    returns (r: Result<seq<string>, ParseError>)
    requires GoodNames(validCols) && cols != [] && forall i :: 0 <= i < |cols| ==> cols[i] in validCols
    ensures r == Success(cols)
  {
    ParseOfJoin(validCols, cols, defaultCols);
    r := ParseColumns(Join(cols, ","), validCols, defaultCols);
  }

  // ---------- case and space ----------

  lemma {:induction false} SameKinds(xs: seq<string>, ys: seq<string>)
    requires |xs| == |ys| && forall i :: 0 <= i < |xs| ==> ToLower(TrimSpace(xs[i])) == ToLower(TrimSpace(ys[i]))
    ensures Kinds(Tokens(xs)) == Kinds(Tokens(ys))
  {
    if xs != [] {
      var last := |xs| - 1;
      SameKinds(xs[..last], ys[..last]);
      var t, u := TrimSpace(xs[last]), TrimSpace(ys[last]);
      assert ToLower(t) == ToLower(u);
      assert t == "" <==> u == "";
      if t != "" {
        KindIgnoresCase(t, u);
      }
      assert Kinds(Tokens(xs)) == Kinds(Tokens(xs[..last])) + (if t == "" then [] else [KindOf(t)]);
      assert Kinds(Tokens(ys)) == Kinds(Tokens(ys[..last])) + (if u == "" then [] else [KindOf(u)]);
    }
  }

  lemma KindIgnoresCase(t: string, u: string)
    requires t != "" && ToLower(t) == ToLower(u)
    ensures KindOf(t) == KindOf(u)
  {
    assert |t| == |u| && LowerChar(t[0]) == ToLower(t)[0] == ToLower(u)[0] == LowerChar(u[0]);
    assert ToLower(t[1..]) == ToLower(t)[1..] && ToLower(u[1..]) == ToLower(u)[1..];
  }

  // Changing the case of letters anywhere leaves the outcome alone.
  lemma CaseDoesNotMatter(a: string, b: string)
    requires ToLower(a) == ToLower(b)
    ensures Kinds(Tokens(Split(a, ','))) == Kinds(Tokens(Split(b, ',')))
  {
    SplitLower(a, ',');
    SplitLower(b, ',');
    var xs, ys, zs := Split(a, ','), Split(b, ','), Split(ToLower(a), ',');
    forall i | 0 <= i < |xs|
      ensures ToLower(TrimSpace(xs[i])) == ToLower(TrimSpace(ys[i]))
    {
      assert LowerParts(xs, zs) && LowerParts(ys, zs);
      assert zs[i] == ToLower(xs[i]) == ToLower(ys[i]);
      LowerTrim(xs[i]);
      LowerTrim(ys[i]);
    }
    SameKinds(xs, ys);
  }

  // So does putting white space around tokens.
  lemma SpaceDoesNotMatter(parts: seq<string>, padded: seq<string>)
    requires parts != [] && |parts| == |padded|
    requires forall i :: 0 <= i < |parts| ==> ',' !in parts[i] && ',' !in padded[i]
    requires forall i :: 0 <= i < |parts| ==>
               exists x, y :: AllSpace(x) && AllSpace(y) && padded[i] == x + parts[i] + y
    ensures Kinds(Tokens(Split(Join(padded, ","), ','))) == Kinds(Tokens(Split(Join(parts, ","), ',')))
  {
    SplitJoin(parts, ',');
    SplitJoin(padded, ',');
    forall i | 0 <= i < |parts|
      ensures TrimSpace(padded[i]) == TrimSpace(parts[i])
    {
      var x, y :| AllSpace(x) && AllSpace(y) && padded[i] == x + parts[i] + y;
      TrimPadded(x, parts[i], y);
    }
    SameKinds(padded, parts);
  }

  // ---------- without a star ----------

  lemma {:induction false} NothingAfterStar(table: map<string, string>, ks: seq<Kind>)
    requires Star !in ks
    ensures Explicit(table, ks, true) == []
  {
    if ks != [] {
      NothingAfterStar(table, ks[..|ks| - 1]);
      assert Star !in ks[..|ks| - 1];
    }
  }

  // Without a star the explicit columns come first and the defaults are appended: those that are wanted, not
  // removed and not among the explicit ones, without repetition and in their order.
  lemma DefaultsAreAppended(table: map<string, string>, ks: seq<Kind>, defaultCols: seq<string>)
    returns (appended: seq<string>)
    requires Star !in ks
    ensures Merged(table, ks, defaultCols) == Explicit(table, ks, false) + appended
    ensures NoDuplicates(appended) && InOrder(appended, defaultCols)
    ensures forall c :: c in appended <==>
              WantsDefaults(ks) && c in defaultCols && c !in Removed(table, ks) && c !in Explicit(table, ks, false)
  {
    var before := Explicit(table, ks, false);
    NothingAfterStar(table, ks);
    appended := [];
    if WantsDefaults(ks) {
      AppendNewMeaning(before, defaultCols, Removed(table, ks));
      AppendNewInOrder(before, defaultCols, Removed(table, ks));
      appended := AppendNew(before, defaultCols, Removed(table, ks))[|before|..];
    } else {
      var at: seq<nat> := [];
      assert Places(at, appended, defaultCols);
    }
  }
}
