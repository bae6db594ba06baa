/** The credentials file of the command line tool: sections of keys and values, named by the host, port and
    login they belong to. Names are looked up without regard to case. The library that reads the file may let
    a section inherit keys from one whose name it extends after a dot; everything here is said of both kinds.

    `Creds` is an authCmd together with the file; `Get`, `Set`, `Login`, `Logout` say what each command does
    to it, and the class AuthCmd performs them on its fields. */
module Credentials {
  import opened Wrappers
  import opened Text
  import opened Numbers

  type Section = map<string, string>
  type Store = map<string, Section>

  datatype Identity = Identity(host: string, port: int, login: string)

  // The library that keeps the store: whether it goes, where a section lacks a key, to the section whose name
  // ends before the last dot; and whether it deletes a section under its folded name, as it looks it up, or
  // under the name as given. Stored names being folded, a name with capitals is then the name of none.
  datatype Library = Library(inherits: bool, deletesFolded: bool)

  // The sections in memory, once they have been read, and those in the file.
  datatype Creds = Creds(cfg: Option<Store>, file: Store, lib: Library)

  datatype AuthError =
    | CannotRead | CannotWrite
    | InvalidHost | InvalidLogin | InvalidPort | InvalidToken
    | NoLogin | NoPassword | Refused

  // ---------- sections ----------

  function NameOf(id: Identity): string {
    id.host + "," + Decimal(id.port) + "," + id.login
  }

  // The name under which the store keeps a section.
  function StoredName(id: Identity): string {
    ToLower(NameOf(id))
  }

  // Section(name) creates the section when there is none.
  function Touched(store: Store, name: string): Store {
    if name in store then store else store[name := map[]]
  }

  // The name extends that of an ancestor by a dot and more.
  predicate Extends(name: string, ancestor: string) {
    |ancestor| < |name| && name[..|ancestor|] == ancestor && name[|ancestor|] == '.'
  }

  function LastDot(name: string): (i: Option<nat>)
    ensures i.Some? ==> i.value < |name| && name[i.value] == '.'
    ensures forall j :: 0 <= j < |name| && (i.Some? ==> i.value < j) ==> name[j] != '.'
  {
    if name == "" then None
    else if name[|name| - 1] == '.' then Some(|name| - 1)
    else LastDot(name[..|name| - 1])
  }

  // The nearest ancestor in the store that has the key.
  function Ancestor(store: Store, name: string, key: string): (a: Option<string>)
    ensures a.Some? ==> a.value in store && key in store[a.value] && Extends(name, a.value)
    decreases |name|
  {
    var i := LastDot(name);
    if i.None? then None
    else
      var parent := name[..i.value];
      if parent in store && key in store[parent] then Some(parent) else Ancestor(store, parent, key)
  }

  // The section in which the key of this section is found, or else is to be created.
  function HomeOf(lib: Library, store: Store, name: string, key: string): (home: string)
    ensures home == name || (lib.inherits && home in store && key in store[home] && Extends(name, home))
  {
    if !lib.inherits || (name in store && key in store[name]) || Ancestor(store, name, key).None? then name
    else Ancestor(store, name, key).value
  }

  function ValueOf(lib: Library, store: Store, name: string, key: string): string {
    var home := HomeOf(lib, store, name, key);
    if home in store && key in store[home] then store[home][key] else ""
  }

  function WithValue(lib: Library, store: Store, name: string, key: string, value: string): Store {
    var st := Touched(store, name);
    var home := HomeOf(lib, st, name, key);
    st[home := st[home][key := value]]
  }

  // Section(name).Key(key).Value() creates the section, and an empty key where none is found.
  function Consulted(lib: Library, store: Store, name: string, key: string): Store {
    var st := Touched(store, name);
    if key in st[HomeOf(lib, st, name, key)] then st else st[name := st[name][key := ""]]
  }

  function Deleted(lib: Library, store: Store, id: Identity): Store {
    if lib.deletesFolded || NameOf(id) == StoredName(id) then store - {StoredName(id)} else store
  }

  function WithoutKey(store: Store, name: string, key: string): Store {
    if name in store then store[name := store[name] - {key}] else store
  }

  // ---------- what the commands do ----------

  function Loaded(s: Creds, readable: bool): Option<Store> {
    if s.cfg.Some? then s.cfg else if readable then Some(s.file) else None
  }

  function Written(s: Creds, st: Store, works: bool): Creds {
    s.(cfg := Some(st), file := if works then st else s.file)
  }

  function Get(s: Creds, id: Identity, readable: bool): Creds {
    if Loaded(s, readable).None? then s
    else s.(cfg := Some(Consulted(s.lib, Loaded(s, readable).value, StoredName(id), "token")))
  }

  function GotToken(s: Creds, id: Identity, readable: bool): Result<string, AuthError> {
    if Loaded(s, readable).None? then Failure(CannotRead)
    else Success(ValueOf(s.lib, Loaded(s, readable).value, StoredName(id), "token"))
  }

  predicate GoodPart(part: string) {
    part != "" && ']' !in part && ',' !in part
  }

  function Refusal(id: Identity, token: string): Option<AuthError> {
    if !GoodPart(id.host) then Some(InvalidHost)
    else if !GoodPart(id.login) then Some(InvalidLogin)
    else if id.port <= 0 then Some(InvalidPort)
    else if token == "" then Some(InvalidToken)
    else None
  }

  function Set(s: Creds, id: Identity, token: string, readable: bool, works: bool): Creds {
    if Loaded(s, readable).None? then s
    else if Refusal(id, token).Some? then s.(cfg := Loaded(s, readable))
    else Written(s, WithValue(s.lib, Loaded(s, readable).value, StoredName(id), "token", token), works)
  }

  // None when it went well.
  function SetError(s: Creds, id: Identity, token: string, readable: bool, works: bool): Option<AuthError> {
    if Loaded(s, readable).None? then Some(CannotRead)
    else if Refusal(id, token).Some? then Refusal(id, token)
    else if works then None else Some(CannotWrite)
  }

  // What the login command is given: a password (or "", to use the stored one or else to prompt), the
  // prompt's answer, whether the password is to be forgotten, and how the world answers: obscure and
  // clear are the obfuscation of stored passwords, and grant is the service's answer to a password.
  datatype LoginArgs = LoginArgs(password: string, prompt: Option<string>, forget: bool,
                                 obscure: string -> string, clear: string -> Option<string>,
                                 grant: string -> Option<string>)

  function StoredPassword(lib: Library, store: Store, id: Identity, clear: string -> Option<string>): string {
    var p := clear(ValueOf(lib, store, StoredName(id), "password"));
    if p.Some? then p.value else ""
  }

  function PasswordUsed(lib: Library, store: Store, id: Identity, a: LoginArgs): Option<string> {
    if a.password != "" then Some(a.password)
    else if StoredPassword(lib, store, id, a.clear) != "" then Some(StoredPassword(lib, store, id, a.clear))
    else if a.prompt.Some? then Some(TrimSpace(a.prompt.value))
    else None
  }

  function TokenGranted(lib: Library, store: Store, id: Identity, a: LoginArgs): Option<string> {
    var p := PasswordUsed(lib, store, id, a);
    if p.Some? then a.grant(p.value) else None
  }

  // The sections when the answer of the service arrives.
  function BeforeAnswer(lib: Library, store: Store, id: Identity, a: LoginArgs): Store {
    if a.password == "" then Consulted(lib, store, StoredName(id), "password") else store
  }

  function WithPassword(lib: Library, store: Store, id: Identity, a: LoginArgs): Store
    requires PasswordUsed(lib, store, id, a).Some?
  {
    WithValue(lib, BeforeAnswer(lib, store, id, a), StoredName(id), "password",
              a.obscure(if a.forget then "" else PasswordUsed(lib, store, id, a).value))
  }

  function Login(s: Creds, id: Identity, a: LoginArgs, readable: bool, works: bool): Creds {
    if id.login == "" || Loaded(s, readable).None? then s
    else
      var store := Loaded(s, readable).value;
      if TokenGranted(s.lib, store, id, a).None? then s.(cfg := Some(BeforeAnswer(s.lib, store, id, a)))
      else
        var token := TokenGranted(s.lib, store, id, a).value;
        Set(s.(cfg := Some(WithPassword(s.lib, store, id, a))), id, token, readable, works)
  }

  function LoginError(s: Creds, id: Identity, a: LoginArgs, readable: bool, works: bool): Option<AuthError> {
    if id.login == "" then Some(NoLogin)
    else if Loaded(s, readable).None? then Some(CannotRead)
    else
      var store := Loaded(s, readable).value;
      if PasswordUsed(s.lib, store, id, a).None? then Some(NoPassword)
      else if TokenGranted(s.lib, store, id, a).None? then Some(Refused)
      else SetError(s.(cfg := Some(store)), id, TokenGranted(s.lib, store, id, a).value, readable, works)
  }

  function Logout(s: Creds, id: Identity, storePassword: bool, readable: bool, works: bool): Creds {
    if id.login == "" || Loaded(s, readable).None? then s
    else
      var store := Loaded(s, readable).value;
      if StoredName(id) !in store then s.(cfg := Some(store))
      else
        var left := if storePassword then WithoutKey(store, StoredName(id), "token") else Deleted(s.lib, store, id);
        Written(s, left, works)
  }

  function LogoutError(s: Creds, id: Identity, readable: bool, works: bool): Option<AuthError> {
    if id.login == "" then Some(NoLogin)
    else if Loaded(s, readable).None? then Some(CannotRead)
    else if StoredName(id) !in Loaded(s, readable).value || works then None
    else Some(CannotWrite)
  }

  // ---------- the list ----------

  datatype Row = Row(host: string, port: int, login: string, token: string)

  // The identity a section name stands for; None is a corrupt name.
  function Parsed(name: string): Option<Identity> {
    var parts := Split(name, ',');
    if |parts| != 3 || Atoi(parts[1]).None? then None
    else Some(Identity(parts[0], Atoi(parts[1]).value, parts[2]))
  }

  datatype ListError = Unreadable | Corrupt(name: string)

  ghost predicate AllParse(names: seq<string>) {
    forall name :: name in names ==> Parsed(name).Some?
  }

  ghost predicate FirstCorrupt(names: seq<string>, n: nat) {
    n < |names| && Parsed(names[n]).None? && AllParse(names[..n])
  }

  // The flags of the list command: all, or those of this host, login and port, where given.
  datatype Filter = Filter(all: bool, host: string, port: int, login: string)

  predicate Passes(f: Filter, id: Identity) {
    || f.all
    || (&& (f.host == "" || ToLower(f.host) == ToLower(id.host))
        && (f.login == "" || ToLower(f.login) == ToLower(id.login))
        && (f.port == 0 || f.port == id.port))
  }

  function RowsOf(lib: Library, store: Store, names: seq<string>, f: Filter, n: nat): seq<Row>
    requires n <= |names|
  {
    if n == 0 then []
    else
      var name, before := names[n - 1], RowsOf(lib, store, names, f, n - 1);
      match Parsed(name)
      case Some(id) =>
        if Passes(f, id) then before + [Row(id.host, id.port, id.login, ValueOf(lib, store, name, "token"))]
        else before
      case None => before
  }

  // ---------- the commands ----------

  class File {
    var sections: Store

    constructor (store: Store)
      ensures sections == store
    {
      sections := store;
    }
  }

  class AuthCmd {
    var cfg: Option<Store>
    const file: File
    const lib: Library

    constructor (file: File, lib: Library)
      ensures this.file == file && this.lib == lib && cfg == None
    {
      this.file, this.lib, cfg := file, lib, None;
    }

    function State(): Creds
      reads this, file
    {
      Creds(cfg, file.sections, lib)
    }

    method ReadCredentialsFile(readable: bool) returns (ok: bool)
      modifies this
      ensures ok <==> Loaded(old(State()), readable).Some?
      ensures State() == old(State()).(cfg := Loaded(old(State()), readable))
    {
      if cfg.Some? {
        return true;
      }
      if !readable {
        return false;
      }
      cfg := Some(file.sections);
      ok := true;
    }

    // The file is replaced as a whole, or not at all.
    method WriteCredentialsFile(works: bool) returns (ok: bool)
      requires cfg.Some?
      modifies file
      ensures ok == works && State() == Written(old(State()), old(cfg).value, works)
    {
      if works {
        file.sections := cfg.value;
      }
      ok := works;
    }

    method GetToken(id: Identity, readable: bool) returns (r: Result<string, AuthError>)
      modifies this
      ensures State() == Get(old(State()), id, readable)
      ensures r == GotToken(old(State()), id, readable)
    {
      var ok := ReadCredentialsFile(readable);
      if !ok {
        return Failure(CannotRead);
      }
      var name := ToLower(NameOf(id));
      r := Success(ValueOf(lib, cfg.value, name, "token"));
      cfg := Some(Consulted(lib, cfg.value, name, "token"));
    }

    method SetToken(id: Identity, token: string, readable: bool, works: bool) returns (error: Option<AuthError>)
      modifies this, file
      ensures State() == Set(old(State()), id, token, readable, works)
      ensures error == SetError(old(State()), id, token, readable, works)
    {
      var ok := ReadCredentialsFile(readable);
      if !ok {
        return Some(CannotRead);
      }
      if id.host == "" || ']' in id.host || ',' in id.host {
        return Some(InvalidHost);
      } else if id.login == "" || ']' in id.login || ',' in id.login {
        return Some(InvalidLogin);
      } else if id.port <= 0 {
        return Some(InvalidPort);
      } else if token == "" {
        return Some(InvalidToken);
      }
      cfg := Some(WithValue(lib, cfg.value, ToLower(NameOf(id)), "token", token));
      ok := WriteCredentialsFile(works);
      error := if ok then None else Some(CannotWrite);
    }

    method LoginExecute(id: Identity, a: LoginArgs, readable: bool, works: bool) returns (error: Option<AuthError>)
      modifies this, file
      ensures State() == Login(old(State()), id, a, readable, works)
      ensures error == LoginError(old(State()), id, a, readable, works)
    {
      if id.login == "" {
        return Some(NoLogin);
      }
      var ok := ReadCredentialsFile(readable);
      if !ok {
        return Some(CannotRead);
      }
      var name, password := ToLower(NameOf(id)), a.password;
      if password == "" {
        var stored := a.clear(ValueOf(lib, cfg.value, name, "password"));
        cfg := Some(Consulted(lib, cfg.value, name, "password"));
        if stored.None? || stored.value == "" {
          if a.prompt.None? {
            return Some(NoPassword);
          }
          password := TrimSpace(a.prompt.value);
        } else {
          password := stored.value;
        }
      }
      var token := a.grant(password);
      if token.None? {
        return Some(Refused);
      }
      if a.forget {
        password := "";
      }
      cfg := Some(WithValue(lib, cfg.value, name, "password", a.obscure(password)));
      error := SetToken(id, token.value, readable, works);
    }

    method LogoutExecute(id: Identity, storePassword: bool, readable: bool, works: bool)
      returns (error: Option<AuthError>)
      modifies this, file
      ensures State() == Logout(old(State()), id, storePassword, readable, works)
      ensures error == LogoutError(old(State()), id, readable, works)
    {
      if id.login == "" {
        return Some(NoLogin);
      }
      var ok := ReadCredentialsFile(readable);
      if !ok {
        return Some(CannotRead);
      }
      var name := ToLower(NameOf(id));
      if name !in cfg.value {
        return None;
      }
      if storePassword {
        cfg := Some(WithoutKey(cfg.value, name, "token"));
      } else {
        cfg := Some(Deleted(lib, cfg.value, id));
      }
      ok := WriteCredentialsFile(works);
      error := if ok then None else Some(CannotWrite);
    }

    // names are the sections in the order the store yields them. Fails on the first corrupt name.
    method ListExecute(names: seq<string>, f: Filter, readable: bool) returns (r: Result<seq<Row>, ListError>)
      requires Loaded(State(), readable).Some? ==>
                 forall name :: name in names <==> name in Loaded(State(), readable).value
      modifies this
      ensures State() == old(State()).(cfg := Loaded(old(State()), readable))
      ensures r == Failure(Unreadable) <==> Loaded(old(State()), readable).None?
      ensures Loaded(old(State()), readable).Some? ==> ListsTo(lib, Loaded(old(State()), readable).value, names, f, r)
    {
      var ok := ReadCredentialsFile(readable);
      if !ok {
        return Failure(Unreadable);
      }
      r := ListRows(lib, cfg.value, names, f);
    }
  }

  lemma RowsOneMore(lib: Library, store: Store, names: seq<string>, f: Filter, n: nat, id: Identity)
    requires n < |names| && Parsed(names[n]) == Some(id)
    ensures RowsOf(lib, store, names, f, n + 1) ==
            RowsOf(lib, store, names, f, n) +
            if Passes(f, id) then [Row(id.host, id.port, id.login, ValueOf(lib, store, names[n], "token"))] else []
  {
  }

  // What the list command returns for the sections of these names, in this order.
  ghost predicate ListsTo(lib: Library, store: Store, names: seq<string>, f: Filter, r: Result<seq<Row>, ListError>) {
    if r.Success? then AllParse(names) && r.value == RowsOf(lib, store, names, f, |names|)
    else exists n: nat :: FirstCorrupt(names, n) && r.error == Corrupt(names[n])
  }

  // The loop over the sections.
  method ListRows(lib: Library, store: Store, names: seq<string>, f: Filter) returns (r: Result<seq<Row>, ListError>)
    ensures ListsTo(lib, store, names, f, r)
  {
    var rows := [];
    for n := 0 to |names|
      invariant rows == RowsOf(lib, store, names, f, n)
      invariant AllParse(names[..n])
    {
      var name := names[n];
      var id := ParseSection(name);
      if id.None? {
        assert FirstCorrupt(names, n);
        return Failure(Corrupt(name));
      }
      assert names[..n + 1] == names[..n] + [name];
      RowsOneMore(lib, store, names, f, n, id.value);
      var matches := Matches(f, id.value);
      if !matches {
        continue;
      }
      rows := rows + [Row(id.value.host, id.value.port, id.value.login, ValueOf(lib, store, name, "token"))];
    }
    assert names[..|names|] == names;
    r := Success(rows);
  }

  method ParseSection(name: string) returns (id: Option<Identity>)
    ensures id == Parsed(name)
  {
    var parts := Split(name, ',');
    if |parts| != 3 {
      return None;
    }
    var port := Atoi(parts[1]);
    if port.None? {
      return None;
    }
    var host, login := parts[0], parts[2];
    id := Some(Identity(host, port.value, login));
  }

  method Matches(f: Filter, id: Identity) returns (matches: bool)
    ensures matches <==> Passes(f, id)
  {
    if !f.all {
      if f.host != "" && ToLower(f.host) != ToLower(id.host) {
        return false;
      }
      if f.login != "" && ToLower(f.login) != ToLower(id.login) {
        return false;
      }
      if f.port != 0 && f.port != id.port {
        return false;
      }
    }
    matches := true;
  }
}
