/** What each credentials command does with its arguments, said of the arguments themselves: which are refused and
    why, which password is sent and which is kept, and which rows a filter lets through. */
module CommandAnswers {
  import opened Wrappers
  import opened Text
  import opened Credentials
  import opened CredentialTheorems

  // ---------- arguments ----------

  // A host or login that cannot be part of a section name.
  predicate Unfit(part: string) {
    part == "" || exists i :: 0 <= i < |part| && (part[i] == ']' || part[i] == ',')
  }

  // An update writes the token exactly when the file can be read and written and no argument is refused; the
  // refusal is for the host, the login, the port and the token, in this order.
  lemma UpdateAnswers(lib: Library, file: Store, id: Identity, token: string, readable: bool, works: bool)
    ensures var error := SetError(Creds(None, file, lib), id, token, readable, works);
            && (error == Some(CannotRead) <==> !readable)
            && (error == Some(InvalidHost) <==> readable && Unfit(id.host))
            && (error == Some(InvalidLogin) <==> readable && !Unfit(id.host) && Unfit(id.login))
            && (error == Some(InvalidPort) <==> readable && !Unfit(id.host) && !Unfit(id.login) && id.port <= 0)
            && (error == Some(InvalidToken) <==>
                  readable && !Unfit(id.host) && !Unfit(id.login) && id.port > 0 && token == "")
            && (error == Some(CannotWrite) <==>
                  readable && !Unfit(id.host) && !Unfit(id.login) && id.port > 0 && token != "" && !works)
            && (error.None? <==>
                  readable && !Unfit(id.host) && !Unfit(id.login) && id.port > 0 && token != "" && works)
    ensures Effect(lib, file, Update(id, token, readable, works)) ==
            if readable && works && !Unfit(id.host) && !Unfit(id.login) && id.port > 0 && token != ""
            then Some(token) else None
  {
    assert Unfit(id.host) <==> !GoodPart(id.host);
    assert Unfit(id.login) <==> !GoodPart(id.login);
  }

  // ---------- the password ----------

  // The password sent: the one given, or else the stored one if there is one that can be read, or else the answer
  // to the prompt without the white space around it.
  ghost predicate Sends(lib: Library, file: Store, id: Identity, a: LoginArgs, p: string) {
    var stored := a.clear(ValueOf(lib, file, StoredName(id), "password"));
    if a.password != "" then p == a.password
    else if stored.Some? && stored.value != "" then p == stored.value
    else a.prompt.Some? && p == TrimSpace(a.prompt.value)
  }

  // A login succeeds exactly when it has a password, the service grants a token for it, and that token can be
  // stored for the identity. The token granted is then stored, and of the password what was not to be forgotten.
  lemma LoginAnswers(lib: Library, file: Store, id: Identity, a: LoginArgs, readable: bool, works: bool)
    ensures var c := LogIn(id, a, readable, works);
            && (Effect(lib, file, c).Some? <==>
                  && readable && works && !Unfit(id.host) && !Unfit(id.login) && id.port > 0
                  && exists p :: Sends(lib, file, id, a, p) && a.grant(p).Some? && a.grant(p).value != "")
            && (Effect(lib, file, c).Some? ==>
                  exists p :: Sends(lib, file, id, a, p) && a.grant(p) == Effect(lib, file, c) &&
                              ValueOf(lib, RunCommand(lib, file, c), StoredName(id), "password") ==
                              a.obscure(if a.forget then "" else p))
  {
    var c := LogIn(id, a, readable, works);
    assert Unfit(id.host) <==> !GoodPart(id.host);
    assert Unfit(id.login) <==> !GoodPart(id.login);
    var used := PasswordUsed(lib, file, id, a);
    assert forall p :: Sends(lib, file, id, a, p) <==> used == Some(p);
    if Effect(lib, file, c).Some? {
      LoginEffect(lib, file, id, a, readable, works);
      var name, kept := StoredName(id), a.obscure(if a.forget then "" else used.value);
      var st := WithPassword(lib, file, id, a);
      WrittenIsRead(lib, BeforeAnswer(lib, file, id, a), name, "password", kept);
      OtherKeyIsKept(lib, st, name, "token", Effect(lib, file, c).value, "password");
      SameReads(lib, st, WithValue(lib, st, name, "token", Effect(lib, file, c).value), name, "password");
      assert Sends(lib, file, id, a, used.value);
    }
  }

  // A login that fails tells which of these was missing.
  lemma FailedLogin(lib: Library, file: Store, id: Identity, a: LoginArgs, readable: bool, works: bool)
    ensures var error := LoginError(Creds(None, file, lib), id, a, readable, works);
            && (error == Some(NoLogin) <==> id.login == "")
            && (error == Some(CannotRead) <==> id.login != "" && !readable)
            && (error == Some(NoPassword) <==>
                  id.login != "" && readable && forall p :: !Sends(lib, file, id, a, p))
            && (error == Some(Refused) <==>
                  id.login != "" && readable && exists p :: Sends(lib, file, id, a, p) && a.grant(p).None?)
  {
    var used := PasswordUsed(lib, file, id, a);
    assert forall p :: Sends(lib, file, id, a, p) <==> used == Some(p);
    if used.Some? {
      assert Sends(lib, file, id, a, used.value);
    }
  }

  // A logout fails without a login, without the file, or when it cannot write what it removed; one whose identity
  // has no section succeeds and writes nothing.
  lemma LogoutAnswers(lib: Library, file: Store, id: Identity, storePassword: bool, readable: bool, works: bool)
    ensures var error := LogoutError(Creds(None, file, lib), id, readable, works);
            && (error == Some(NoLogin) <==> id.login == "")
            && (error == Some(CannotRead) <==> id.login != "" && !readable)
            && (error == Some(CannotWrite) <==> id.login != "" && readable && StoredName(id) in file && !works)
            && (error.None? <==> id.login != "" && readable && (StoredName(id) in file ==> works))
    ensures StoredName(id) !in file ==> RunCommand(lib, file, LogOut(id, storePassword, readable, works)) == file
  {
  }

  // ---------- the list ----------

  // Without flags the list shows everything; a host, login or port given must be that of the row, host and login up
  // to the case of letters.
  lemma FilterAnswers(f: Filter, id: Identity)
    ensures f.all ==> Passes(f, id)
    ensures !f.all ==>
              (Passes(f, id) <==>
                 && (f.host != "" ==> ToLower(id.host) == ToLower(f.host))
                 && (f.login != "" ==> ToLower(id.login) == ToLower(f.login))
                 && (f.port != 0 ==> id.port == f.port))
  {
  }

  // With all three given, exactly the rows whose section is that of the flags.
  lemma FullFilter(f: Filter, id: Identity)
    requires !f.all && f.host != "" && f.login != "" && f.port != 0
    requires GoodIdentity(id) && GoodIdentity(Identity(f.host, f.port, f.login))
    ensures Passes(f, id) <==> StoredName(id) == StoredName(Identity(f.host, f.port, f.login))
  {
    SameSection(id, Identity(f.host, f.port, f.login));
  }
}
