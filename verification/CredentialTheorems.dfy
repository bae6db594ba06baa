/** What the credentials file promises over every run of commands, each of which reads the file afresh. */
module CredentialTheorems {
  import opened Wrappers
  import opened Text
  import opened Numbers
  import opened Credentials

  // ---------- section names ----------

  ghost predicate GoodIdentity(id: Identity) {
    GoodPart(id.host) && GoodPart(id.login) && id.port > 0 && IsInt(id.port)
  }

  // Identities are told apart up to the case of host and login.
  function Folded(id: Identity): Identity {
    Identity(ToLower(id.host), id.port, ToLower(id.login))
  }

  lemma LowerWithComma(a: string, b: string)
    ensures ToLower(a + "," + b) == ToLower(a) + "," + ToLower(b)
  {
    LowerConcat(a + ",", b);
    LowerConcat(a, ",");
    assert ToLower(",") == ",";
  }

  lemma StoredNameIs(id: Identity)
    ensures StoredName(id) == ToLower(id.host) + "," + Decimal(id.port) + "," + ToLower(id.login)
  {
    LowerWithComma(id.host + "," + Decimal(id.port), id.login);
    LowerWithComma(id.host, Decimal(id.port));
    DecimalIsPlain(id.port);
  }

  lemma {:induction false} LowerComma(s: string)
    ensures ',' in ToLower(s) <==> ',' in s
  {
    assert forall i :: 0 <= i < |s| ==> (ToLower(s)[i] == ',' <==> s[i] == ',');
  }

  lemma CommaFreeParses(id: Identity)
    requires ',' !in id.host && ',' !in id.login && IsInt(id.port)
    ensures Parsed(StoredName(id)) == Some(Folded(id))
  {
    var parts := [ToLower(id.host), Decimal(id.port), ToLower(id.login)];
    StoredNameIs(id);
    JoinThree(parts[0], parts[1], parts[2]);
    LowerComma(id.host);
    LowerComma(id.login);
    DecimalIsPlain(id.port);
    SplitJoin(parts, ',');
    AtoiOfDecimal(id.port);
  }

  lemma JoinThree(a: string, b: string, c: string)
    ensures Join([a, b, c], ",") == a + "," + b + "," + c
  {
    assert [a, b, c][1..] == [b, c] && [b, c][1..] == [c];
    assert Join([b, c], ",") == b + "," + c;
    assert a + "," + (b + "," + c) == a + "," + b + "," + c;
  }

  lemma NamePartCount(id: Identity)
    ensures |Split(StoredName(id), ',')| == 3 + Count(id.host, ',') + Count(id.login, ',')
  {
    SplitLower(NameOf(id), ',');
    SplitCount(NameOf(id), ',');
    CountConcat(id.host + "," + Decimal(id.port) + ",", id.login, ',');
    CountConcat(id.host + "," + Decimal(id.port), ",", ',');
    CountConcat(id.host + ",", Decimal(id.port), ',');
    CountConcat(id.host, ",", ',');
    DecimalIsPlain(id.port);
    CountZero(Decimal(id.port), ',');
  }

  // A section name splits back into its host, port and login exactly when these contain no comma.
  lemma ParsesIffCommaFree(id: Identity)
    requires IsInt(id.port)
    ensures Parsed(StoredName(id)).Some? <==> ',' !in id.host && ',' !in id.login
    ensures Parsed(StoredName(id)).Some? ==> Parsed(StoredName(id)) == Some(Folded(id))
  {
    NamePartCount(id);
    CountZero(id.host, ',');
    CountZero(id.login, ',');
    if ',' !in id.host && ',' !in id.login {
      CommaFreeParses(id);
    }
  }

  // The name of a good identity is shared by no identity but itself, up to case.
  lemma SameSection(id: Identity, other: Identity)
    requires GoodIdentity(id) && IsInt(other.port)
    ensures StoredName(id) == StoredName(other) <==> Folded(id) == Folded(other)
  {
    ParsesIffCommaFree(id);
    ParsesIffCommaFree(other);
    StoredNameIs(id);
    StoredNameIs(other);
  }

  // ---------- runs ----------

  datatype Command =
    | Consult(id: Identity, readable: bool)
    | Update(id: Identity, token: string, readable: bool, works: bool)
    | LogIn(id: Identity, args: LoginArgs, readable: bool, works: bool)
    | LogOut(id: Identity, storePassword: bool, readable: bool, works: bool)

  function RunCommand(lib: Library, file: Store, c: Command): Store {
    var s := Creds(None, file, lib);
    match c
    case Consult(id, readable) => Get(s, id, readable).file
    case Update(id, token, readable, works) => Set(s, id, token, readable, works).file
    case LogIn(id, args, readable, works) => Login(s, id, args, readable, works).file
    case LogOut(id, storePassword, readable, works) => Logout(s, id, storePassword, readable, works).file
  }

  // A logout removes something: the token, or the section under a name the library deletes it by.
  predicate Removes(lib: Library, c: Command)
    requires c.LogOut?
  {
    c.storePassword || lib.deletesFolded || NameOf(c.id) == StoredName(c.id)
  }

  // The token a command leaves in the file for its identity; None when it leaves the file alone.
  function Effect(lib: Library, file: Store, c: Command): Option<string> {
    var s := Creds(None, file, lib);
    match c
    case Consult(_, _) => None
    case Update(id, token, readable, works) =>
      if SetError(s, id, token, readable, works).None? then Some(token) else None
    case LogIn(id, args, readable, works) =>
      if LoginError(s, id, args, readable, works).None? then TokenGranted(lib, file, id, args) else None
    case LogOut(id, _, readable, works) =>
      if StoredName(id) in file && works && LogoutError(s, id, readable, works).None? && Removes(lib, c) then Some("")
      else None
  }

  ghost predicate IsRun(lib: Library, files: seq<Store>, commands: seq<Command>) {
    && |files| == |commands| + 1
    && forall i :: 0 <= i < |commands| ==>
         IsInt(commands[i].id.port) && files[i + 1] == RunCommand(lib, files[i], commands[i])
  }

  ghost predicate WrittenName(name: string) {
    exists id :: GoodIdentity(id) && name == StoredName(id)
  }

  ghost predicate FileOk(file: Store) {
    forall name :: name in file ==> WrittenName(name)
  }

  function SectionOf(file: Store, id: Identity): Option<Section> {
    if StoredName(id) in file then Some(file[StoredName(id)]) else None
  }

  function TokenOf(lib: Library, file: Store, id: Identity): string {
    ValueOf(lib, file, StoredName(id), "token")
  }

  // ---------- keys of other sections ----------

  // The section of this name has no ancestor in the store to take a key from.
  ghost predicate Apart(lib: Library, store: Store, name: string) {
    lib.inherits ==> forall n :: n in store ==> !Extends(name, n)
  }

  // The key is in the same sections.
  ghost predicate SameKeys(a: Store, b: Store, key: string) {
    forall n :: (n in a && key in a[n]) <==> (n in b && key in b[n])
  }

  // And it has the same values.
  ghost predicate SameValues(a: Store, b: Store, key: string) {
    SameKeys(a, b, key) && forall n :: n in a && key in a[n] ==> a[n][key] == b[n][key]
  }

  lemma {:induction false} SameAncestor(a: Store, b: Store, name: string, key: string)
    requires SameKeys(a, b, key)
    ensures Ancestor(a, name, key) == Ancestor(b, name, key)
    decreases |name|
  {
    var i := LastDot(name);
    if i.Some? {
      var parent := name[..i.value];
      assert (parent in a && key in a[parent]) <==> (parent in b && key in b[parent]);
      SameAncestor(a, b, parent, key);
    }
  }

  lemma SameReads(lib: Library, a: Store, b: Store, n: string, key: string)
    requires SameValues(a, b, key)
    ensures HomeOf(lib, a, n, key) == HomeOf(lib, b, n, key) && ValueOf(lib, a, n, key) == ValueOf(lib, b, n, key)
  {
    SameAncestor(a, b, n, key);
  }

  lemma TouchedKeeps(store: Store, name: string, key: string)
    ensures SameValues(store, Touched(store, name), key)
  {
  }

  // What is written for a key is read for it, wherever it went.
  lemma WrittenIsRead(lib: Library, store: Store, name: string, key: string, value: string)
    ensures ValueOf(lib, WithValue(lib, store, name, key, value), name, key) == value
  {
    var st := Touched(store, name);
    var home := HomeOf(lib, st, name, key);
    if home != name {
      SameAncestor(st, WithValue(lib, store, name, key, value), name, key);
    }
  }

  // Writing one key changes no other, and neither does consulting one.
  lemma OtherKeyIsKept(lib: Library, store: Store, name: string, key: string, value: string, other: string)
    requires other != key
    ensures SameValues(store, WithValue(lib, store, name, key, value), other)
    ensures SameValues(store, Consulted(lib, store, name, key), other)
  {
    var st := Touched(store, name);
    KeySet(st, HomeOf(lib, st, name, key), key, value, other);
    KeySet(st, name, key, "", other);
    TouchedKeeps(store, name, other);
  }

  lemma KeySet(store: Store, section: string, key: string, value: string, other: string)
    requires section in store && other != key
    ensures SameValues(store, store[section := store[section][key := value]], other)
  {
  }

  // Writing and consulting create no section but the one named, and change none but the key's home.
  lemma WritesHome(lib: Library, store: Store, name: string, key: string, value: string, n: string)
    ensures n in WithValue(lib, store, name, key, value) <==> n in store || n == name
    ensures n in Consulted(lib, store, name, key) <==> n in store || n == name
    ensures n in store && n != name ==> Consulted(lib, store, name, key)[n] == store[n]
    ensures n in store && n != name && Apart(lib, store, name) ==>
            WithValue(lib, store, name, key, value)[n] == store[n]
  {
  }

  lemma BeforeNames(lib: Library, file: Store, id: Identity, args: LoginArgs, name: string)
    ensures var st := BeforeAnswer(lib, file, id, args);
            && (name in st ==> name in file || name == StoredName(id)) && (name in file ==> name in st)
            && (name in file && name != StoredName(id) ==> st[name] == file[name])
  {
    WritesHome(lib, file, StoredName(id), "password", "", name);
  }

  lemma BeforeKeepsApart(lib: Library, file: Store, id: Identity, args: LoginArgs)
    requires Apart(lib, file, StoredName(id))
    ensures Apart(lib, BeforeAnswer(lib, file, id, args), StoredName(id))
  {
    forall n | n in BeforeAnswer(lib, file, id, args)
      ensures n in file || n == StoredName(id)
    {
      BeforeNames(lib, file, id, args, n);
    }
    ApartStays(lib, file, BeforeAnswer(lib, file, id, args), StoredName(id));
  }

  function PasswordStored(lib: Library, file: Store, id: Identity, args: LoginArgs): string
    requires PasswordUsed(lib, file, id, args).Some?
  {
    args.obscure(if args.forget then "" else PasswordUsed(lib, file, id, args).value)
  }

  lemma LoginNames(lib: Library, file: Store, id: Identity, args: LoginArgs, name: string)
    requires PasswordUsed(lib, file, id, args).Some?
    ensures name in WithPassword(lib, file, id, args) <==> name in file || name == StoredName(id)
    ensures name in file && name != StoredName(id) && Apart(lib, file, StoredName(id)) ==>
              WithPassword(lib, file, id, args)[name] == file[name]
  {
    var st := BeforeAnswer(lib, file, id, args);
    BeforeNames(lib, file, id, args, name);
    WritesHome(lib, st, StoredName(id), "password", PasswordStored(lib, file, id, args), name);
    if Apart(lib, file, StoredName(id)) {
      BeforeKeepsApart(lib, file, id, args);
    }
  }

  lemma ApartStays(lib: Library, store: Store, st: Store, name: string)
    requires Apart(lib, store, name) && forall n :: n in st ==> n in store || n == name
    ensures Apart(lib, st, name)
  {
  }

  // ---------- what a command writes ----------

  // Whether a command writes shows in the file only then; only good identities get a section, and only those
  // that have one lose it.
  ghost predicate Writes(lib: Library, file: Store, c: Command) {
    var file', e := RunCommand(lib, file, c), Effect(lib, file, c);
    && (e.None? ==> file' == file)
    && (e.Some? && (c.Update? || c.LogIn?) ==> GoodPart(c.id.host) && GoodPart(c.id.login) && c.id.port > 0)
    && (e.Some? && c.LogOut? ==> StoredName(c.id) in file)
  }

  // A login that succeeds stores the password first and the token second.
  lemma LoginEffect(lib: Library, file: Store, id: Identity, args: LoginArgs, readable: bool, works: bool)
    ensures var c := LogIn(id, args, readable, works);
            && Writes(lib, file, c)
            && (Effect(lib, file, c).Some? ==>
                  && PasswordUsed(lib, file, id, args).Some?
                  && RunCommand(lib, file, c) ==
                     WithValue(lib, WithPassword(lib, file, id, args), StoredName(id), "token",
                               Effect(lib, file, c).value))
  {
  }

  lemma CommandWrites(lib: Library, file: Store, c: Command)
    ensures Writes(lib, file, c)
  {
    match c
    case Consult(_, _) =>
    case Update(_, _, _, _) =>
    case LogIn(id, args, readable, works) => LoginEffect(lib, file, id, args, readable, works);
    case LogOut(_, _, _, _) =>
  }

  lemma UpdateNames(lib: Library, file: Store, c: Command, name: string)
    requires c.Update? && name != StoredName(c.id)
    ensures name in RunCommand(lib, file, c) <==> name in file
    ensures name in file && Apart(lib, file, StoredName(c.id)) ==>
            RunCommand(lib, file, c)[name] == file[name]
  {
    WritesHome(lib, file, StoredName(c.id), "token", c.token, name);
  }

  lemma LoginCommandNames(lib: Library, file: Store, c: Command, name: string)
    requires c.LogIn? && name != StoredName(c.id)
    ensures name in RunCommand(lib, file, c) <==> name in file
    ensures name in file && Apart(lib, file, StoredName(c.id)) ==>
            RunCommand(lib, file, c)[name] == file[name]
  {
    LoginEffect(lib, file, c.id, c.args, c.readable, c.works);
    if Effect(lib, file, c).Some? {
      var st := WithPassword(lib, file, c.id, c.args);
      LoginNames(lib, file, c.id, c.args, name);
      WritesHome(lib, st, StoredName(c.id), "token", Effect(lib, file, c).value, name);
      LoginKeepsApart(lib, file, c.id, c.args);
    }
  }

  // No other section comes or goes; and none changes, if the command's identity has no ancestor.
  lemma CommandNames(lib: Library, file: Store, c: Command, name: string)
    requires name != StoredName(c.id)
    ensures name in RunCommand(lib, file, c) <==> name in file
    ensures name in file && Apart(lib, file, StoredName(c.id)) ==>
            RunCommand(lib, file, c)[name] == file[name]
  {
    if c.Update? {
      UpdateNames(lib, file, c, name);
    } else if c.LogIn? {
      LoginCommandNames(lib, file, c, name);
    }
  }

  lemma LoginKeepsApart(lib: Library, file: Store, id: Identity, args: LoginArgs)
    requires PasswordUsed(lib, file, id, args).Some?
    ensures Apart(lib, file, StoredName(id)) ==>
            Apart(lib, WithPassword(lib, file, id, args), StoredName(id))
  {
    forall n | n in WithPassword(lib, file, id, args)
      ensures n in file || n == StoredName(id)
    {
      LoginNames(lib, file, id, args, n);
    }
  }

  lemma UpdatedToken(lib: Library, file: Store, id: Identity, token: string, readable: bool, works: bool)
    requires Effect(lib, file, Update(id, token, readable, works)).Some?
    ensures TokenOf(lib, RunCommand(lib, file, Update(id, token, readable, works)), id) == token
  {
    WrittenIsRead(lib, file, StoredName(id), "token", token);
  }

  lemma LoginToken(lib: Library, file: Store, id: Identity, args: LoginArgs, readable: bool, works: bool)
    requires Effect(lib, file, LogIn(id, args, readable, works)).Some?
    ensures var c := LogIn(id, args, readable, works);
            TokenOf(lib, RunCommand(lib, file, c), id) == Effect(lib, file, c).value
  {
    LoginEffect(lib, file, id, args, readable, works);
    WrittenIsRead(lib, WithPassword(lib, file, id, args), StoredName(id), "token",
                  Effect(lib, file, LogIn(id, args, readable, works)).value);
  }

  lemma LogoutToken(lib: Library, file: Store, id: Identity, storePassword: bool, readable: bool, works: bool)
    requires Effect(lib, file, LogOut(id, storePassword, readable, works)).Some? &&
             Apart(lib, file, StoredName(id))
    ensures TokenOf(lib, RunCommand(lib, file, LogOut(id, storePassword, readable, works)), id) == ""
  {
  }

  // The token an update or login leaves is the one read for its identity, ancestors or not; after a logout
  // none is read, if there is no ancestor.
  lemma OwnToken(lib: Library, file: Store, c: Command)
    requires Effect(lib, file, c).Some? && (c.LogOut? ==> Apart(lib, file, StoredName(c.id)))
    ensures TokenOf(lib, RunCommand(lib, file, c), c.id) == Effect(lib, file, c).value
  {
    match c
    case Update(id, token, readable, works) => UpdatedToken(lib, file, id, token, readable, works);
    case LogIn(id, args, readable, works) => LoginToken(lib, file, id, args, readable, works);
    case LogOut(id, storePassword, readable, works) => LogoutToken(lib, file, id, storePassword, readable, works);
  }

  lemma RunKeepsFileOk(lib: Library, file: Store, c: Command)
    requires FileOk(file) && IsInt(c.id.port)
    ensures FileOk(RunCommand(lib, file, c))
  {
    forall name | name in RunCommand(lib, file, c)
      ensures WrittenName(name)
    {
      CommandWrites(lib, file, c);
      if name != StoredName(c.id) {
        CommandNames(lib, file, c, name);
      } else if name !in file {
        assert GoodIdentity(c.id);
      }
    }
  }

  lemma {:induction false} FileStaysOk(lib: Library, files: seq<Store>, commands: seq<Command>, n: nat)
    requires IsRun(lib, files, commands) && FileOk(files[0]) && n < |files|
    ensures FileOk(files[n])
  {
    if n > 0 {
      FileStaysOk(lib, files, commands, n - 1);
      RunKeepsFileOk(lib, files[n - 1], commands[n - 1]);
      assert files[n - 1 + 1] == RunCommand(lib, files[n - 1], commands[n - 1]);
    }
  }

  lemma WrittenNameParses(name: string)
    requires WrittenName(name)
    ensures exists id :: GoodIdentity(id) && name == StoredName(id) && Parsed(name) == Some(Folded(id))
  {
    var id :| GoodIdentity(id) && name == StoredName(id);
    ParsesIffCommaFree(id);
  }

  // Over every run, every section name in the file splits back into the host, port and login it was
  // written for, so the list is never reported corrupt.
  lemma ListIsNeverCorrupt(lib: Library, files: seq<Store>, commands: seq<Command>, n: nat, names: seq<string>)
    requires IsRun(lib, files, commands) && FileOk(files[0]) && n < |files|
    requires forall name :: name in names <==> name in files[n]
    ensures AllParse(names)
    ensures forall name :: name in names ==>
              exists id :: GoodIdentity(id) && name == StoredName(id) && Parsed(name) == Some(Folded(id))
  {
    FileStaysOk(lib, files, commands, n);
    forall name | name in names
      ensures exists id :: GoodIdentity(id) && name == StoredName(id) && Parsed(name) == Some(Folded(id))
    {
      assert WrittenName(name);
      WrittenNameParses(name);
    }
  }

  ghost predicate IsRowOf(lib: Library, store: Store, name: string, f: Filter, row: Row) {
    var id := Identity(row.host, row.port, row.login);
    Parsed(name) == Some(id) && Passes(f, id) && row.token == ValueOf(lib, store, name, "token")
  }

  lemma RowAdded(lib: Library, store: Store, names: seq<string>, f: Filter, n: nat, row: Row)
    requires n < |names|
    ensures row in RowsOf(lib, store, names, f, n + 1) <==>
              row in RowsOf(lib, store, names, f, n) || IsRowOf(lib, store, names[n], f, row)
  {
    if Parsed(names[n]).Some? {
      RowsOneMore(lib, store, names, f, n, Parsed(names[n]).value);
    }
  }

  // The list has a row for exactly the sections that pass the filter, with the identity each was written
  // for and its token.
  lemma {:induction false} RowsAreTheSections(lib: Library, store: Store, names: seq<string>, f: Filter, n: nat,
                                              row: Row)
    requires n <= |names|
    ensures row in RowsOf(lib, store, names, f, n) <==>
            exists i: nat :: i < n && IsRowOf(lib, store, names[i], f, row)
  {
    if n > 0 {
      RowsAreTheSections(lib, store, names, f, n - 1, row);
      RowAdded(lib, store, names, f, n - 1, row);
    }
  }

  // Who wrote it: some update or login of the run, unless it was there at the start.
  lemma {:induction false} SectionsAreWrittenByCommands(lib: Library, files: seq<Store>, commands: seq<Command>,
                                                        n: nat, name: string)
    requires IsRun(lib, files, commands) && n < |files| && name in files[n]
    ensures name in files[0] ||
            exists j :: 0 <= j < n && (commands[j].Update? || commands[j].LogIn?) &&
                        Effect(lib, files[j], commands[j]).Some? && name == StoredName(commands[j].id)
  {
    if n > 0 {
      var c := commands[n - 1];
      assert files[n - 1 + 1] == RunCommand(lib, files[n - 1], c);
      if name in files[n - 1] {
        SectionsAreWrittenByCommands(lib, files, commands, n - 1, name);
      } else {
        CommandWrites(lib, files[n - 1], c);
        if name != StoredName(c.id) {
          CommandNames(lib, files[n - 1], c, name);
        }
      }
    }
  }

  // A command whose identity has no ancestor in the file leaves the sections of all other identities alone,
  // and gives its own the token it writes.
  lemma OthersAreUntouched(lib: Library, file: Store, c: Command, id: Identity)
    requires FileOk(file) && IsInt(c.id.port) && IsInt(id.port) && Apart(lib, file, StoredName(c.id))
    ensures if Effect(lib, file, c).Some? && Folded(c.id) == Folded(id)
            then TokenOf(lib, RunCommand(lib, file, c), id) == Effect(lib, file, c).value
            else
              && SectionOf(RunCommand(lib, file, c), id) == SectionOf(file, id)
              && (Apart(lib, file, StoredName(id)) && Apart(lib, RunCommand(lib, file, c), StoredName(id)) ==>
                    TokenOf(lib, RunCommand(lib, file, c), id) == TokenOf(lib, file, id))
  {
    CommandWrites(lib, file, c);
    if Effect(lib, file, c).Some? {
      WriterIsNamed(file, c.id, id, c.LogOut?);
      OwnToken(lib, file, c);
      if StoredName(c.id) != StoredName(id) {
        CommandNames(lib, file, c, StoredName(id));
      }
    }
  }

  // A good identity, and one that has a section, shares its name with no other.
  lemma WriterIsNamed(file: Store, writer: Identity, id: Identity, stored: bool)
    requires FileOk(file) && IsInt(writer.port) && IsInt(id.port)
    requires if stored then StoredName(writer) in file else GoodIdentity(writer)
    ensures StoredName(writer) == StoredName(id) <==> Folded(writer) == Folded(id)
  {
    var good := writer;
    if stored {
      assert WrittenName(StoredName(writer));
      good :| GoodIdentity(good) && StoredName(writer) == StoredName(good);
    }
    SameSection(good, writer);
    SameSection(good, id);
  }

  // What a command writes for this identity, if anything.
  function WritesFor(lib: Library, file: Store, c: Command, id: Identity): Option<string> {
    if Folded(c.id) == Folded(id) then Effect(lib, file, c) else None
  }

  lemma ApartToken(lib: Library, a: Store, b: Store, id: Identity)
    requires Apart(lib, a, StoredName(id)) && Apart(lib, b, StoredName(id)) &&
             SectionOf(a, id) == SectionOf(b, id)
    ensures TokenOf(lib, a, id) == TokenOf(lib, b, id)
  {
  }

  lemma TokenAfter(lib: Library, file: Store, c: Command, id: Identity)
    requires FileOk(file) && IsInt(c.id.port) && IsInt(id.port) && Apart(lib, file, StoredName(c.id))
    requires Apart(lib, file, StoredName(id)) && Apart(lib, RunCommand(lib, file, c), StoredName(id))
    ensures TokenOf(lib, RunCommand(lib, file, c), id) ==
            if WritesFor(lib, file, c, id).Some? then WritesFor(lib, file, c, id).value
            else TokenOf(lib, file, id)
  {
    OthersAreUntouched(lib, file, c, id);
    if WritesFor(lib, file, c, id).None? {
      ApartToken(lib, RunCommand(lib, file, c), file, id);
    }
  }

  // ---------- runs without ancestors ----------

  // No section name among these extends another.
  ghost predicate AllApart(lib: Library, names: set<string>) {
    lib.inherits ==> forall m, n :: m in names && n in names ==> !Extends(m, n)
  }

  // The names that a run may bring into the file.
  ghost predicate Covers(names: set<string>, file: Store, commands: seq<Command>) {
    file.Keys <= names && forall i :: 0 <= i < |commands| ==> StoredName(commands[i].id) in names
  }

  lemma CommandStaysCovered(lib: Library, file: Store, c: Command, names: set<string>)
    requires file.Keys <= names && StoredName(c.id) in names
    ensures RunCommand(lib, file, c).Keys <= names
  {
    forall name | name in RunCommand(lib, file, c)
      ensures name in names
    {
      if name != StoredName(c.id) {
        CommandNames(lib, file, c, name);
      }
    }
  }

  lemma {:induction false} NamesStayCovered(lib: Library, files: seq<Store>, commands: seq<Command>,
                                            names: set<string>, n: nat)
    requires IsRun(lib, files, commands) && Covers(names, files[0], commands) && n < |files|
    ensures files[n].Keys <= names
  {
    if n > 0 {
      NamesStayCovered(lib, files, commands, names, n - 1);
      assert StoredName(commands[n - 1].id) in names;
      CommandStaysCovered(lib, files[n - 1], commands[n - 1], names);
      assert files[n - 1 + 1] == RunCommand(lib, files[n - 1], commands[n - 1]);
    }
  }

  lemma CoveredIsApart(lib: Library, names: set<string>, file: Store, name: string)
    requires AllApart(lib, names) && file.Keys <= names && name in names
    ensures Apart(lib, file, name)
  {
  }

  ghost predicate Follow(tokens: seq<string>, writes: seq<Option<string>>) {
    && |tokens| == |writes| + 1
    && forall k :: 0 <= k < |writes| ==> tokens[k + 1] == if writes[k].Some? then writes[k].value else tokens[k]
  }

  lemma {:induction false} LastWriteHolds(tokens: seq<string>, writes: seq<Option<string>>, j: nat, n: nat)
    requires Follow(tokens, writes) && j < n < |tokens| && writes[j].Some?
    requires forall k :: j < k < n ==> writes[k].None?
    ensures tokens[n] == writes[j].value
    decreases n
  {
    assert tokens[n - 1 + 1] == if writes[n - 1].Some? then writes[n - 1].value else tokens[n - 1];
    if j < n - 1 {
      LastWriteHolds(tokens, writes, j, n - 1);
    }
  }

  function TokensOf(lib: Library, files: seq<Store>, id: Identity): (tokens: seq<string>)
    ensures |tokens| == |files| && forall k :: 0 <= k < |files| ==> tokens[k] == TokenOf(lib, files[k], id)
  {
    seq(|files|, k requires 0 <= k < |files| => TokenOf(lib, files[k], id))
  }

  function WritesOf(lib: Library, files: seq<Store>, commands: seq<Command>,
                    id: Identity): (writes: seq<Option<string>>)
    requires |files| == |commands| + 1
    ensures |writes| == |commands|
    ensures forall k :: 0 <= k < |commands| ==> writes[k] == WritesFor(lib, files[k], commands[k], id)
  {
    seq(|commands|, k requires 0 <= k < |commands| => WritesFor(lib, files[k], commands[k], id))
  }

  lemma TokensFollow(lib: Library, files: seq<Store>, commands: seq<Command>, names: set<string>, id: Identity)
    requires IsRun(lib, files, commands) && FileOk(files[0]) && IsInt(id.port)
    requires AllApart(lib, names) && Covers(names, files[0], commands) && StoredName(id) in names
    ensures Follow(TokensOf(lib, files, id), WritesOf(lib, files, commands, id))
  {
    var tokens, writes := TokensOf(lib, files, id), WritesOf(lib, files, commands, id);
    forall k | 0 <= k < |commands|
      ensures tokens[k + 1] == if writes[k].Some? then writes[k].value else tokens[k]
    {
      FileStaysOk(lib, files, commands, k);
      assert files[k + 1] == RunCommand(lib, files[k], commands[k]);
      NamesStayCovered(lib, files, commands, names, k);
      NamesStayCovered(lib, files, commands, names, k + 1);
      CoveredIsApart(lib, names, files[k], StoredName(commands[k].id));
      CoveredIsApart(lib, names, files[k], StoredName(id));
      CoveredIsApart(lib, names, files[k + 1], StoredName(id));
      TokenAfter(lib, files[k], commands[k], id);
    }
  }

  // Over every run in which no section name extends another after a dot, or whose store does not inherit
  // keys, the token read for an identity is the one left by the last command that wrote for it.
  lemma LastTokenIsRead(lib: Library, files: seq<Store>, commands: seq<Command>, names: set<string>,
                        j: nat, n: nat, id: Identity)
    requires IsRun(lib, files, commands) && FileOk(files[0]) && j < n < |files| && IsInt(id.port)
    requires AllApart(lib, names) && Covers(names, files[0], commands) && StoredName(id) in names
    requires WritesFor(lib, files[j], commands[j], id).Some?
    requires forall k :: j < k < n ==> WritesFor(lib, files[k], commands[k], id).None?
    ensures GotToken(Creds(None, files[n], lib), id, true) ==
            Success(WritesFor(lib, files[j], commands[j], id).value)
  {
    TokensFollow(lib, files, commands, names, id);
    LastWriteHolds(TokensOf(lib, files, id), WritesOf(lib, files, commands, id), j, n);
  }

  // ---------- identities that share a token ----------

  lemma UpdatedFile(lib: Library, file: Store, id: Identity, token: string)
    requires GoodIdentity(id) && token != ""
    ensures RunCommand(lib, file, Update(id, token, true, true)) ==
            WithValue(lib, file, StoredName(id), "token", token)
  {
  }

  lemma WrittenToAncestor(lib: Library, file: Store, name: string, key: string, value: string)
    requires lib.inherits && Ancestor(file, name, key).Some? && (name in file ==> key !in file[name])
    ensures var a, st := Ancestor(file, name, key).value, Touched(file, name);
            WithValue(lib, file, name, key, value) == st[a := file[a][key := value]] && a != name
  {
    SameAncestor(file, Touched(file, name), name, key);
  }

  lemma AncestorHasIt(lib: Library, file: Store, name: string, key: string, value: string)
    requires lib.inherits && Ancestor(file, name, key).Some? && (name in file ==> key !in file[name])
    ensures var file', a := WithValue(lib, file, name, key, value), Ancestor(file, name, key).value;
            && ValueOf(lib, file', a, key) == value && ValueOf(lib, file', name, key) == value
            && name in file' && key !in file'[name]
  {
    WrittenToAncestor(lib, file, name, key, value);
    WrittenIsRead(lib, file, name, key, value);
  }

  // Where a store inherits keys and an identity without a token of its own has an ancestor with one, an
  // update for it overwrites the ancestor's token and leaves none in its own section.
  lemma AncestorIsOverwritten(lib: Library, file: Store, id: Identity, token: string, ancestor: Identity)
    requires lib.inherits && GoodIdentity(id) && token != ""
    requires Ancestor(file, StoredName(id), "token") == Some(StoredName(ancestor))
    requires StoredName(id) in file ==> "token" !in file[StoredName(id)]
    ensures var file' := RunCommand(lib, file, Update(id, token, true, true));
            && TokenOf(lib, file', ancestor) == token && TokenOf(lib, file', id) == token
            && StoredName(id) in file' && "token" !in file'[StoredName(id)]
  {
    UpdatedFile(lib, file, id, token);
    AncestorHasIt(lib, file, StoredName(id), "token", token);
  }

  // Every section but that of the name is as it was.
  ghost predicate OthersStay(file: Store, file': Store, name: string) {
    forall n :: n in file && n != name ==> n in file' && file'[n] == file[n]
  }

  // A write stays in the section where it is to go unless it goes to an ancestor, and there it shows if new.
  lemma WriteStaysHome(lib: Library, file: Store, name: string, key: string, value: string)
    requires lib.inherits
    ensures OthersStay(file, WithValue(lib, file, name, key, value), name) <==>
              (name in file && key in file[name]) || Ancestor(file, name, key).None? ||
              file[Ancestor(file, name, key).value][key] == value
  {
    var a, file' := Ancestor(file, name, key), WithValue(lib, file, name, key, value);
    if name in file && key in file[name] {
      assert file' == file[name := file[name][key := value]];
    } else if a.None? {
      SameAncestor(file, Touched(file, name), name, key);
    } else {
      WrittenToAncestor(lib, file, name, key, value);
      assert file'[a.value] == file[a.value][key := value];
      assert file'[a.value] == file[a.value] <==> file[a.value][key] == value;
      assert forall n :: n in file && n != name && n != a.value ==> file'[n] == file[n];
    }
  }

  // Such an update leaves every other section alone exactly when the identity has a token of its own, or no
  // ancestor has one, or the token is the one the ancestor has already.
  lemma UpdateStaysHome(lib: Library, file: Store, id: Identity, token: string)
    requires lib.inherits && GoodIdentity(id) && token != ""
    ensures var name, file' := StoredName(id), RunCommand(lib, file, Update(id, token, true, true));
            OthersStay(file, file', name) <==>
              (name in file && "token" in file[name]) || Ancestor(file, name, "token").None? ||
              file[Ancestor(file, name, "token").value]["token"] == token
  {
    UpdatedFile(lib, file, id, token);
    WriteStaysHome(lib, file, StoredName(id), "token", token);
  }

  // ---------- passwords ----------

  // A login stores the password it used, unless told to forget it, and the next login uses it.
  lemma StoredPasswordIsUsed(lib: Library, file: Store, id: Identity, a: LoginArgs, next: LoginArgs, p: string)
    requires Effect(lib, file, LogIn(id, a, true, true)).Some?
    requires PasswordUsed(lib, file, id, a) == Some(p) && p != ""
    requires next.password == "" && next.clear(a.obscure(p)) == Some(p) && next.clear(a.obscure("")) == Some("")
    ensures PasswordUsed(lib, RunCommand(lib, file, LogIn(id, a, true, true)), id, next) ==
            if !a.forget then Some(p) else if next.prompt.Some? then Some(TrimSpace(next.prompt.value)) else None
  {
    LoginEffect(lib, file, id, a, true, true);
    var name, kept := StoredName(id), a.obscure(if a.forget then "" else p);
    var st := WithPassword(lib, file, id, a);
    WrittenIsRead(lib, BeforeAnswer(lib, file, id, a), name, "password", kept);
    var token := Effect(lib, file, LogIn(id, a, true, true)).value;
    OtherKeyIsKept(lib, st, name, "token", token, "password");
    SameReads(lib, st, WithValue(lib, st, name, "token", token), name, "password");
  }

  // ---------- a section nobody wrote ----------

  function FileAfterConsulting(lib: Library, file: Store, asked: Identity, id: Identity, token: string): Store {
    Set(Get(Creds(None, file, lib), asked, true), id, token, true, true).file
  }

  lemma SectionsAfterConsulting(lib: Library, file: Store, asked: Identity, id: Identity, token: string, name: string)
    requires GoodIdentity(id) && token != ""
    ensures name in FileAfterConsulting(lib, file, asked, id, token) <==>
            name in file || name == StoredName(asked) || name == StoredName(id)
  {
  }

  // Reading the token of an identity creates its section in memory. Had the same authCmd then to write
  // the file, the list would be corrupt exactly when that identity contains a comma.
  lemma ConsultedSectionIsWritten(lib: Library, file: Store, asked: Identity, id: Identity, token: string,
                                  names: seq<string>)
    requires FileOk(file) && IsInt(asked.port) && GoodIdentity(id) && token != ""
    requires forall name :: name in names <==> name in FileAfterConsulting(lib, file, asked, id, token)
    ensures StoredName(asked) in names
    ensures AllParse(names) <==> ',' !in asked.host && ',' !in asked.login
  {
    ParsesIffCommaFree(asked);
    SectionsAfterConsulting(lib, file, asked, id, token, StoredName(asked));
    forall name | name in names && name != StoredName(asked)
      ensures Parsed(name).Some?
    {
      SectionsAfterConsulting(lib, file, asked, id, token, name);
      assert WrittenName(name);
      WrittenNameParses(name);
    }
  }
}
