/** The parser of column lists given on the command line. */
module Columns {
  import opened Wrappers
  import opened Text

  datatype ParseError = DuplicateStar | InvalidColumn(token: string)

  // A token that is not blank: a star, a column added to or removed from the defaults, or a plain column.
  // Keys are folded to lower case.
  datatype Kind = Star | Plus(key: string) | Minus(key: string) | Plain(key: string)

  function KindOf(token: string): Kind {
    if token == "*" then Star
    else if token != [] && token[0] == '+' then Plus(ToLower(token[1..]))
    else if token != [] && token[0] == '-' then Minus(ToLower(token[1..]))
    else Plain(ToLower(token))
  }

  function Tokens(parts: seq<string>): seq<string> {
    if parts == [] then []
    else
      var token := TrimSpace(parts[|parts| - 1]);
      Tokens(parts[..|parts| - 1]) + (if token == "" then [] else [token])
  }

  function Kinds(tokens: seq<string>): (ks: seq<Kind>)
    ensures |ks| == |tokens| && forall i :: 0 <= i < |ks| ==> ks[i] == KindOf(tokens[i])
  {
    seq(|tokens|, i requires 0 <= i < |tokens| => KindOf(tokens[i]))
  }

  function KeyOf(column: string): string {
    TrimSpace(ToLower(column))
  }

  // The valid columns by key. A later column takes the key of an earlier one.
  function Table(validCols: seq<string>): map<string, string> {
    if validCols == [] then map[]
    else Table(validCols[..|validCols| - 1])[KeyOf(validCols[|validCols| - 1]) := validCols[|validCols| - 1]]
  }

  // ---------- what the parser is to return ----------

  predicate Known(table: map<string, string>, k: Kind) {
    k.Star? || k.key in table
  }

  // Nothing before position n is unknown or a second star.
  ghost predicate Acceptable(table: map<string, string>, ks: seq<Kind>, n: nat)
    requires n <= |ks|
  {
    && (forall i :: 0 <= i < n ==> Known(table, ks[i]))
    && (forall i, j :: 0 <= i < j < n ==> !(ks[i].Star? && ks[j].Star?))
  }

  // The columns named before (or after) the star, in order, where all keys are known.
  function Explicit(table: map<string, string>, ks: seq<Kind>, afterStar: bool): seq<string> {
    if ks == [] then []
    else
      var k := ks[|ks| - 1];
      Explicit(table, ks[..|ks| - 1], afterStar) +
      (if (k.Plain? || k.Plus?) && k.key in table && (Star in ks[..|ks| - 1]) == afterStar then [table[k.key]] else [])
  }

  function Removed(table: map<string, string>, ks: seq<Kind>): set<string> {
    set k | k in ks && k.Minus? && k.key in table :: table[k.key]
  }

  // A star, a plus or a minus asks for the default columns.
  predicate WantsDefaults(ks: seq<Kind>) {
    exists k :: k in ks && !k.Plain?
  }

  // base, followed by those of more that are not skipped and not there yet.
  function AppendNew(base: seq<string>, more: seq<string>, skip: set<string>): seq<string> {
    if more == [] then base
    else
      var sofar := AppendNew(base, more[..|more| - 1], skip);
      var c := more[|more| - 1];
      if c in skip || c in sofar then sofar else sofar + [c]
  }

  function Merged(table: map<string, string>, ks: seq<Kind>, defaultCols: seq<string>): seq<string> {
    var before := Explicit(table, ks, false);
    var withDefaults := if WantsDefaults(ks) then AppendNew(before, defaultCols, Removed(table, ks)) else before;
    AppendNew(withDefaults, Explicit(table, ks, true), {})
  }

  function Shown(table: map<string, string>, ks: seq<Kind>, defaultCols: seq<string>): seq<string> {
    if Merged(table, ks, defaultCols) == [] then defaultCols else Merged(table, ks, defaultCols)
  }

  // ---------- the parser ----------

  method MakeTable(validCols: seq<string>) returns (lcCols: map<string, string>)
    ensures lcCols == Table(validCols)
  {
    lcCols := map[];
    for i := 0 to |validCols|
      invariant lcCols == Table(validCols[..i])
    {
      assert validCols[..i + 1][..i] == validCols[..i];
      lcCols := lcCols[TrimSpace(ToLower(validCols[i])) := validCols[i]];
    }
    assert validCols[..|validCols|] == validCols;
  }

  method AppendMissing(base: seq<string>, more: seq<string>, skip: set<string>) returns (cols: seq<string>)
    ensures cols == AppendNew(base, more, skip)
  {
    cols := base;
    for i := 0 to |more|
      invariant cols == AppendNew(base, more[..i], skip)
    {
      assert more[..i + 1][..i] == more[..i];
      if more[i] !in skip && more[i] !in cols {
        cols := cols + [more[i]];
      }
    }
    assert more[..|more|] == more;
  }

  // The variables of the parser. The source appends through a pointer, which a star moves from
  // beforeDefault to afterDefault.
  datatype Vars = Vars(mustAddDefaults: bool, seenStar: bool, removeDefault: set<string>,
                       beforeDefault: seq<string>, afterDefault: seq<string>)

  function Read(table: map<string, string>, v: Vars, k: Kind): Vars
    requires Known(table, k)
  {
    match k
    case Star => v.(mustAddDefaults := true, seenStar := true)
    case Minus(key) => v.(mustAddDefaults := true, removeDefault := v.removeDefault + {table[key]})
    case _ =>
      v.(mustAddDefaults := v.mustAddDefaults || k.Plus?,
         beforeDefault := if v.seenStar then v.beforeDefault else v.beforeDefault + [table[k.key]],
         afterDefault := if v.seenStar then v.afterDefault + [table[k.key]] else v.afterDefault)
  }

  function VarsOf(table: map<string, string>, ks: seq<Kind>): Vars {
    Vars(WantsDefaults(ks), Star in ks, Removed(table, ks), Explicit(table, ks, false), Explicit(table, ks, true))
  }

  lemma ExplicitAppended(table: map<string, string>, ks: seq<Kind>, k: Kind, afterStar: bool)
    requires Known(table, k)
    ensures Explicit(table, ks + [k], afterStar) ==
            Explicit(table, ks, afterStar) +
            (if (k.Plain? || k.Plus?) && (Star in ks) == afterStar then [table[k.key]] else [])
  {
    assert (ks + [k])[..|ks|] == ks && (ks + [k])[|ks|] == k;
  }

  lemma RemovedAppended(table: map<string, string>, ks: seq<Kind>, k: Kind)
    requires Known(table, k)
    ensures Removed(table, ks + [k]) == Removed(table, ks) + (if k.Minus? then {table[k.key]} else {})
    ensures WantsDefaults(ks + [k]) <==> WantsDefaults(ks) || !k.Plain?
    ensures Star in ks + [k] <==> Star in ks || k.Star?
  {
    assert forall x :: x in ks + [k] <==> x in ks || x == k;
  }

  lemma KindAppended(table: map<string, string>, ks: seq<Kind>, k: Kind)
    requires Known(table, k)
    ensures VarsOf(table, ks + [k]) == Read(table, VarsOf(table, ks), k)
  {
    ExplicitAppended(table, ks, k, false);
    ExplicitAppended(table, ks, k, true);
    RemovedAppended(table, ks, k);
    assert Explicit(table, ks, false) + [] == Explicit(table, ks, false);
    assert Explicit(table, ks, true) + [] == Explicit(table, ks, true);
    assert Removed(table, ks) + {} == Removed(table, ks);
  }

  lemma AcceptableAppended(table: map<string, string>, ks: seq<Kind>, k: Kind)
    requires Acceptable(table, ks, |ks|) && Known(table, k) && (k.Star? ==> Star !in ks)
    ensures Acceptable(table, ks + [k], |ks| + 1)
  {
  }

  lemma {:induction false} TokensPrefix(parts: seq<string>, n: nat)
    requires n <= |parts|
    ensures Tokens(parts[..n]) <= Tokens(parts)
    decreases |parts|
  {
    if n == |parts| {
      assert parts[..n] == parts;
    } else {
      TokensPrefix(parts[..|parts| - 1], n);
      assert parts[..|parts| - 1][..n] == parts[..n];
    }
  }

  // The first kind that cannot be accepted, and the error for it.
  ghost predicate Offends(table: map<string, string>, ks: seq<Kind>, n: nat, error: ParseError) {
    && n < |ks| && Acceptable(table, ks, n)
    && if Known(table, ks[n]) then ks[n].Star? && Star in ks[..n] && error == DuplicateStar
       else error.InvalidColumn? && ToLower(error.token) == ks[n].key
  }

  lemma OffenceIsFatal(table: map<string, string>, ks: seq<Kind>, n: nat, error: ParseError)
    requires Offends(table, ks, n, error)
    ensures !Acceptable(table, ks, |ks|)
  {
    if Known(table, ks[n]) {
      var i :| 0 <= i < n && ks[i] == Star;
    }
  }

  // What was read so far is how the whole list begins.
  lemma KindsBegin(parts: seq<string>, p: nat, k: Kind)
    requires p < |parts| && TrimSpace(parts[p]) != "" && k == KindOf(TrimSpace(parts[p]))
    ensures var ks, seen := Kinds(Tokens(parts)), Kinds(Tokens(parts[..p]));
            |seen| < |ks| && ks[|seen|] == k && ks[..|seen|] == seen
  {
    TokensPrefix(parts, p + 1);
    assert parts[..p + 1][..p] == parts[..p];
    assert Tokens(parts[..p + 1]) == Tokens(parts[..p]) + [TrimSpace(parts[p])];
  }

  // What the list of kinds is refused with.
  ghost predicate Rejected(table: map<string, string>, ks: seq<Kind>, error: ParseError) {
    !Acceptable(table, ks, |ks|) && exists n :: Offends(table, ks, n, error)
  }

  lemma OffenceFound(table: map<string, string>, parts: seq<string>, p: nat, k: Kind, error: ParseError)
    requires p < |parts| && TrimSpace(parts[p]) != "" && k == KindOf(TrimSpace(parts[p]))
    requires var seen := Kinds(Tokens(parts[..p]));
             && Acceptable(table, seen, |seen|)
             && if Known(table, k) then k.Star? && Star in seen && error == DuplicateStar
                else error.InvalidColumn? && ToLower(error.token) == k.key
    ensures Rejected(table, Kinds(Tokens(parts)), error)
  {
    var seen, ks := Kinds(Tokens(parts[..p])), Kinds(Tokens(parts));
    KindsBegin(parts, p, k);
    assert forall i :: 0 <= i < |seen| ==> ks[i] == seen[i];
    assert Offends(table, ks, |seen|, error);
    OffenceIsFatal(table, ks, |seen|, error);
  }

  method ReadToken(lcCols: map<string, string>, v: Vars, trimmed: string) returns (r: Result<Vars, ParseError>)
    requires trimmed != ""
    ensures var k := KindOf(trimmed);
            if !Known(lcCols, k) then r == Failure(InvalidColumn(if k.Plain? then trimmed else trimmed[1..]))
            else if k.Star? && v.seenStar then r == Failure(DuplicateStar)
            else r == Success(Read(lcCols, v, k))
    // a minus removes a column and a plus adds one, and both ask for the defaults
    ensures trimmed[0] == '-' && ToLower(trimmed[1..]) in lcCols ==>
              r == Success(v.(mustAddDefaults := true,
                              removeDefault := v.removeDefault + {lcCols[ToLower(trimmed[1..])]}))
    ensures trimmed[0] == '+' && ToLower(trimmed[1..]) in lcCols ==>
              r == Success(if v.seenStar
                           then v.(mustAddDefaults := true,
                                   afterDefault := v.afterDefault + [lcCols[ToLower(trimmed[1..])]])
                           else v.(mustAddDefaults := true,
                                   beforeDefault := v.beforeDefault + [lcCols[ToLower(trimmed[1..])]]))
  {
    var token := trimmed;
    if token == "*" {
      return if v.seenStar then Failure(DuplicateStar)
             else Success(v.(seenStar := true, mustAddDefaults := true));
    }
    var next, mustRemove := v, false;
    if token[0] == '+' {
      next := next.(mustAddDefaults := true);
      token := token[1..];
    } else if token[0] == '-' {
      next := next.(mustAddDefaults := true);
      token := token[1..];
      mustRemove := true;
    }
    var lc := ToLower(token);
    if lc !in lcCols {
      return Failure(InvalidColumn(token));
    }
    if mustRemove {
      next := next.(removeDefault := next.removeDefault + {lcCols[lc]});
    } else if next.seenStar {
      next := next.(afterDefault := next.afterDefault + [lcCols[lc]]);
    } else {
      next := next.(beforeDefault := next.beforeDefault + [lcCols[lc]]);
    }
    r := Success(next);
  }

  lemma KindsOneMore(parts: seq<string>, p: nat)
    requires p < |parts|
    ensures var token := TrimSpace(parts[p]);
            Kinds(Tokens(parts[..p + 1])) == Kinds(Tokens(parts[..p])) + (if token == "" then [] else [KindOf(token)])
  {
    assert parts[..p + 1][..p] == parts[..p];
  }

  method Combine(v: Vars, defaultCols: seq<string>) returns (cols: seq<string>)
    ensures var withDefaults := if v.mustAddDefaults
            then AppendNew(v.beforeDefault, defaultCols, v.removeDefault) else v.beforeDefault;
            var merged := AppendNew(withDefaults, v.afterDefault, {});
            cols == if merged == [] then defaultCols else merged
  {
    cols := v.beforeDefault;
    if v.mustAddDefaults {
      cols := AppendMissing(cols, defaultCols, v.removeDefault);
    }
    cols := AppendMissing(cols, v.afterDefault, {});
    if cols == [] {
      cols := defaultCols;
    }
  }

  // The loop over the tokens, before the token at p is looked at.
  ghost predicate ReadSoFar(table: map<string, string>, parts: seq<string>, p: nat, v: Vars)
    requires p <= |parts|
  {
    var seen := Kinds(Tokens(parts[..p]));
    Acceptable(table, seen, |seen|) && v == VarsOf(table, seen)
  }

  lemma ReadOne(table: map<string, string>, parts: seq<string>, p: nat, v: Vars)
    requires p < |parts| && ReadSoFar(table, parts, p, v)
    ensures TrimSpace(parts[p]) == "" ==> ReadSoFar(table, parts, p + 1, v)
    ensures var k := KindOf(TrimSpace(parts[p]));
            TrimSpace(parts[p]) != "" && Known(table, k) && !(k.Star? && v.seenStar) ==>
              ReadSoFar(table, parts, p + 1, Read(table, v, k))
  {
    var seen, k := Kinds(Tokens(parts[..p])), KindOf(TrimSpace(parts[p]));
    KindsOneMore(parts, p);
    assert seen + [] == seen;
    if TrimSpace(parts[p]) != "" && Known(table, k) && !(k.Star? && v.seenStar) {
      KindAppended(table, seen, k);
      AcceptableAppended(table, seen, k);
    }
  }

  lemma ReadAll(table: map<string, string>, parts: seq<string>, v: Vars)
    requires ReadSoFar(table, parts, |parts|, v)
    ensures var ks := Kinds(Tokens(parts)); Acceptable(table, ks, |ks|) && v == VarsOf(table, ks)
  {
    assert parts[..|parts|] == parts;
  }

  // Where a token is refused, so is the list.
  lemma RefusedToken(table: map<string, string>, parts: seq<string>, p: nat, v: Vars, error: ParseError)
    requires p < |parts| && ReadSoFar(table, parts, p, v) && TrimSpace(parts[p]) != ""
    requires var k := KindOf(TrimSpace(parts[p]));
             if Known(table, k) then k.Star? && v.seenStar && error == DuplicateStar
             else error.InvalidColumn? && ToLower(error.token) == k.key
    ensures Rejected(table, Kinds(Tokens(parts)), error)
  {
    OffenceFound(table, parts, p, KindOf(TrimSpace(parts[p])), error);
  }

  // The body of the loop, for the token at p.
  method ReadNext(lcCols: map<string, string>, parts: seq<string>, p: nat, v: Vars)
    returns (r: Result<Vars, ParseError>)
    requires p < |parts| && ReadSoFar(lcCols, parts, p, v)
    ensures r.Success? ==> ReadSoFar(lcCols, parts, p + 1, r.value)
    ensures r.Failure? ==> Rejected(lcCols, Kinds(Tokens(parts)), r.error)
  {
    ReadOne(lcCols, parts, p, v);
    var token := TrimSpace(parts[p]);
    if token == "" {
      return Success(v);
    }
    r := ReadToken(lcCols, v, token);
    if r.Failure? {
      KeyOfToken(token);
      RefusedToken(lcCols, parts, p, v, r.error);
    }
  }

  // The token reported is the one whose key is unknown.
  lemma KeyOfToken(token: string)
    requires token != ""
    ensures var k := KindOf(token); !k.Star? ==> ToLower(if k.Plain? then token else token[1..]) == k.key
  {
  }

  // What the loop over the tokens computes, or is stopped by.
  ghost predicate ReadsTo(table: map<string, string>, ks: seq<Kind>, r: Result<Vars, ParseError>) {
    if r.Success? then Acceptable(table, ks, |ks|) && r.value == VarsOf(table, ks) else Rejected(table, ks, r.error)
  }

  method ReadTokens(lcCols: map<string, string>, parts: seq<string>) returns (r: Result<Vars, ParseError>)
    ensures ReadsTo(lcCols, Kinds(Tokens(parts)), r)
  {
    r := Success(Vars(false, false, {}, [], []));
    for p := 0 to |parts|
      invariant r.Success? && ReadSoFar(lcCols, parts, p, r.value)
    {
      r := ReadNext(lcCols, parts, p, r.value);
      if r.Failure? {
        return;
      }
    }
    ReadAll(lcCols, parts, r.value);
  }

  // Fails exactly on an unknown name or a second star, reporting the first; otherwise returns the columns
  // specified above.
  method ParseColumns(colString: string, validCols: seq<string>, defaultCols: seq<string>)
    returns (r: Result<seq<string>, ParseError>)
    ensures var table, ks := Table(validCols), Kinds(Tokens(Split(colString, ',')));
            && (r.Success? <==> Acceptable(table, ks, |ks|))
            && (r.Success? ==> r.value == Shown(table, ks, defaultCols))
            && (r.Failure? ==> exists n :: Offends(table, ks, n, r.error))
  {
    var lcCols := MakeTable(validCols);
    var read := ReadTokens(lcCols, Split(colString, ','));
    if read.Failure? {
      return Failure(read.error);
    }
    var cols := Combine(read.value, defaultCols);
    r := Success(cols);
  }
}
