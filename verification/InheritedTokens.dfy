/** Whose token a command changes, where a section may inherit its token from one whose name it extends. */
module InheritedTokens {
  import opened Wrappers
  import opened Text
  import opened Numbers
  import opened Credentials
  import opened CredentialTheorems

  // ---------- tokens read through another section ----------

  // The token of a section named n is read in w once w has one: w is n, or the nearest ancestor with a token.
  predicate ReadsThrough(lib: Library, store: Store, n: string, w: string, key: string) {
    || n == w
    || (&& lib.inherits && !(n in store && key in store[n]) && Extends(n, w)
        && (Ancestor(store, n, key).None? || |Ancestor(store, n, key).value| <= |w|))
  }

  lemma ExtendsThrough(n: string, w: string)
    requires LastDot(n).Some?
    ensures Extends(n, w) <==> w == n[..LastDot(n).value] || Extends(n[..LastDot(n).value], w)
  {
    var parent := n[..LastDot(n).value];
    if Extends(n, w) {
      assert |w| <= |parent| && (|w| == |parent| ==> w == parent);
      assert parent[..|w|] == n[..|w|];
    }
    if Extends(parent, w) {
      assert parent[..|w|] == n[..|w|];
    }
  }

  // The same sections have the key, but that w has it in b.
  ghost predicate OneMoreKey(a: Store, b: Store, w: string, key: string) {
    && w in b && key in b[w]
    && forall n :: n != w ==> ((n in a && key in a[n]) <==> (n in b && key in b[n]))
  }

  lemma {:induction false} AncestorWithOneMore(a: Store, b: Store, n: string, w: string, key: string)
    requires OneMoreKey(a, b, w, key)
    ensures Ancestor(b, n, key) == Some(w) <==>
              Extends(n, w) && (Ancestor(a, n, key).None? || |Ancestor(a, n, key).value| <= |w|)
    ensures Ancestor(b, n, key) == Some(w) || Ancestor(b, n, key) == Ancestor(a, n, key)
    decreases |n|
  {
    var i := LastDot(n);
    if i.Some? {
      var parent := n[..i.value];
      ExtendsThrough(n, w);
      assert parent != w ==> ((parent in a && key in a[parent]) <==> (parent in b && key in b[parent]));
      AncestorWithOneMore(a, b, parent, w, key);
    }
  }

  lemma WrittenKeys(lib: Library, store: Store, name: string, key: string, value: string)
    ensures var w := HomeOf(lib, Touched(store, name), name, key);
            && OneMoreKey(store, WithValue(lib, store, name, key, value), w, key)
            && WithValue(lib, store, name, key, value)[w][key] == value
            && forall n :: n != w && n in store ==> WithValue(lib, store, name, key, value)[n] == store[n]
  {
  }

  // After a write, those who read through the section written get the new value, and all others what they got.
  lemma ReadAfterWrite(lib: Library, store: Store, name: string, key: string, value: string, n: string)
    ensures var st, w := WithValue(lib, store, name, key, value), HomeOf(lib, Touched(store, name), name, key);
            ValueOf(lib, st, n, key) ==
            if ReadsThrough(lib, store, n, w, key) then value else ValueOf(lib, store, n, key)
  {
    var st, w := WithValue(lib, store, name, key, value), HomeOf(lib, Touched(store, name), name, key);
    WrittenKeys(lib, store, name, key, value);
    AncestorWithOneMore(store, st, n, w, key);
    assert n != w ==> ((n in store && key in store[n]) <==> (n in st && key in st[n]));
  }

  // The section an update or login writes the token to.
  function WrittenSection(lib: Library, file: Store, id: Identity): string {
    HomeOf(lib, Touched(file, StoredName(id)), StoredName(id), "token")
  }

  lemma LoginKeepsTokens(lib: Library, file: Store, id: Identity, args: LoginArgs)
    requires PasswordUsed(lib, file, id, args).Some?
    ensures SameValues(file, WithPassword(lib, file, id, args), "token")
  {
    var st := BeforeAnswer(lib, file, id, args);
    OtherKeyIsKept(lib, file, StoredName(id), "password", "", "token");
    OtherKeyIsKept(lib, st, StoredName(id), "password", PasswordStored(lib, file, id, args), "token");
  }

  lemma SameWrittenSection(lib: Library, file: Store, st: Store, id: Identity)
    requires SameValues(file, st, "token")
    ensures WrittenSection(lib, file, id) == WrittenSection(lib, st, id)
  {
    var name := StoredName(id);
    TouchedKeeps(file, name, "token");
    TouchedKeeps(st, name, "token");
    SameReads(lib, Touched(file, name), file, name, "token");
    SameReads(lib, Touched(st, name), st, name, "token");
    SameReads(lib, file, st, name, "token");
  }

  lemma SameReadsThrough(lib: Library, a: Store, b: Store, n: string, w: string, key: string)
    requires SameKeys(a, b, key)
    ensures ReadsThrough(lib, a, n, w, key) <==> ReadsThrough(lib, b, n, w, key)
  {
    SameAncestor(a, b, n, key);
    assert (n in a && key in a[n]) <==> (n in b && key in b[n]);
  }

  lemma ReadAfterLogin(lib: Library, file: Store, c: Command, n: string)
    requires c.LogIn? && Effect(lib, file, c).Some?
    ensures ValueOf(lib, RunCommand(lib, file, c), n, "token") ==
            if ReadsThrough(lib, file, n, WrittenSection(lib, file, c.id), "token") then Effect(lib, file, c).value
            else ValueOf(lib, file, n, "token")
  {
    LoginEffect(lib, file, c.id, c.args, c.readable, c.works);
    var st := WithPassword(lib, file, c.id, c.args);
    LoginKeepsTokens(lib, file, c.id, c.args);
    SameWrittenSection(lib, file, st, c.id);
    SameReadsThrough(lib, file, st, n, WrittenSection(lib, file, c.id), "token");
    SameReads(lib, file, st, n, "token");
    ReadAfterWrite(lib, st, StoredName(c.id), "token", Effect(lib, file, c).value, n);
  }

  lemma ReadAfterUpdate(lib: Library, file: Store, c: Command, n: string)
    requires c.Update? && Effect(lib, file, c).Some?
    ensures ValueOf(lib, RunCommand(lib, file, c), n, "token") ==
            if ReadsThrough(lib, file, n, WrittenSection(lib, file, c.id), "token") then Effect(lib, file, c).value
            else ValueOf(lib, file, n, "token")
  {
    ReadAfterWrite(lib, file, StoredName(c.id), "token", c.token, n);
  }

  // After a successful update or login the token read for any identity is what was read for it before, if and
  // only if its token is not read through the section written, or was the new one already.
  lemma TokenReadByOthers(lib: Library, file: Store, c: Command, other: Identity)
    requires (c.Update? || c.LogIn?) && Effect(lib, file, c).Some?
    ensures TokenOf(lib, RunCommand(lib, file, c), other) == TokenOf(lib, file, other) <==>
              || !ReadsThrough(lib, file, StoredName(other), WrittenSection(lib, file, c.id), "token")
              || TokenOf(lib, file, other) == Effect(lib, file, c).value
  {
    if c.Update? {
      ReadAfterUpdate(lib, file, c, StoredName(other));
    } else {
      ReadAfterLogin(lib, file, c, StoredName(other));
    }
  }

  // What is read for a section whose own key is gone.
  function AncestorValue(lib: Library, store: Store, name: string, key: string): string {
    var a := Ancestor(store, name, key);
    if lib.inherits && a.Some? then store[a.value][key] else ""
  }

  // The same sections have the key, with the same values, but that m does not have it in b.
  ghost predicate OneKeyLess(a: Store, b: Store, m: string, key: string) {
    && !(m in b && key in b[m])
    && forall n :: n != m ==> && ((n in a && key in a[n]) <==> (n in b && key in b[n]))
                              && (n in a && key in a[n] ==> a[n][key] == b[n][key])
  }

  lemma {:induction false} AncestorWithOneLess(a: Store, b: Store, n: string, m: string, key: string)
    requires OneKeyLess(a, b, m, key)
    ensures Ancestor(a, n, key) == Some(m) ==> Ancestor(b, n, key) == Ancestor(b, m, key)
    ensures Ancestor(a, n, key) != Some(m) ==> Ancestor(b, n, key) == Ancestor(a, n, key)
    decreases |n|
  {
    var i := LastDot(n);
    if i.Some? {
      var parent := n[..i.value];
      assert parent != m ==> ((parent in a && key in a[parent]) <==> (parent in b && key in b[parent]));
      AncestorWithOneLess(a, b, parent, m, key);
    }
  }

  lemma OwnAncestorStays(a: Store, b: Store, m: string, key: string)
    requires OneKeyLess(a, b, m, key)
    ensures Ancestor(b, m, key) == Ancestor(a, m, key)
  {
    AncestorWithOneLess(a, b, m, m, key);
    var found := Ancestor(a, m, key);
    assert found.Some? ==> Extends(m, found.value);
  }

  lemma ReadAfterRemoval(lib: Library, a: Store, b: Store, m: string, key: string, n: string)
    requires OneKeyLess(a, b, m, key) && n != m
    ensures ValueOf(lib, b, n, key) ==
            if HomeOf(lib, a, n, key) == m then AncestorValue(lib, a, m, key) else ValueOf(lib, a, n, key)
  {
    AncestorWithOneLess(a, b, n, m, key);
    OwnAncestorStays(a, b, m, key);
    assert (n in a && key in a[n]) <==> (n in b && key in b[n]);
  }

  lemma LogoutRemovesKey(lib: Library, file: Store, c: Command)
    requires c.LogOut? && Effect(lib, file, c).Some?
    ensures OneKeyLess(file, RunCommand(lib, file, c), StoredName(c.id), "token")
  {
  }

  // After a logout that removes something, the token read for any other identity is what was read for it before,
  // if and only if it was not found in the section of the logout, or that section's ancestor has the same one.
  lemma TokenReadAfterLogout(lib: Library, file: Store, c: Command, other: Identity)
    requires c.LogOut? && Effect(lib, file, c).Some? && StoredName(other) != StoredName(c.id)
    ensures TokenOf(lib, RunCommand(lib, file, c), other) == TokenOf(lib, file, other) <==>
              || HomeOf(lib, file, StoredName(other), "token") != StoredName(c.id)
              || TokenOf(lib, file, other) == AncestorValue(lib, file, StoredName(c.id), "token")
  {
    LogoutRemovesKey(lib, file, c);
    ReadAfterRemoval(lib, file, RunCommand(lib, file, c), StoredName(c.id), "token", StoredName(other));
  }

  // A logout that is to store the password removes the token only; another removes the whole section, exactly
  // when the library deletes under the folded name or the name has no capitals. Where the section has an
  // ancestor, what is read afterwards is the ancestor's token.
  lemma LogoutForgets(lib: Library, file: Store, id: Identity, storePassword: bool)
    requires id.login != "" && StoredName(id) in file
    ensures var c := LogOut(id, storePassword, true, true);
            var file' := RunCommand(lib, file, c);
            && (storePassword ==> SectionOf(file', id) == Some(SectionOf(file, id).value - {"token"}))
            && (!storePassword ==>
                  (SectionOf(file', id).None? <==> lib.deletesFolded || NameOf(id) == StoredName(id)) &&
                  (SectionOf(file', id).Some? ==> file' == file))
            && (Removes(lib, c) ==> TokenOf(lib, file', id) == AncestorValue(lib, file, StoredName(id), "token"))
  {
    var c := LogOut(id, storePassword, true, true);
    if Removes(lib, c) {
      LogoutRemovesKey(lib, file, c);
      OwnAncestorStays(file, RunCommand(lib, file, c), StoredName(id), "token");
    }
  }

  // ---------- two logins that share a token ----------

  lemma LowerWithDot(a: string, b: string)
    ensures ToLower(a + "." + b) == ToLower(a) + "." + ToLower(b)
  {
    LowerConcat(a + ".", b);
    LowerConcat(a, ".");
    assert ToLower(".") == ".";
  }

  lemma ChildName(parent: Identity, child: Identity, rest: string)
    requires child.host == parent.host && child.port == parent.port && child.login == parent.login + "." + rest
    ensures StoredName(child) == StoredName(parent) + "." + ToLower(rest)
  {
    StoredNameIs(parent);
    StoredNameIs(child);
    LowerWithDot(parent.login, rest);
    var front := ToLower(parent.host) + "," + Decimal(parent.port) + ",";
    Associate(front, ToLower(parent.login) + ".", ToLower(rest));
    Associate(front, ToLower(parent.login), ".");
  }

  lemma ParentIsAncestor(store: Store, p: string, rest: string, key: string)
    requires '.' !in rest && p in store && key in store[p]
    ensures Extends(p + "." + rest, p) && Ancestor(store, p + "." + rest, key) == Some(p)
  {
    var n := p + "." + rest;
    assert n[..|p|] == p && n[|p|] == '.';
    assert forall j :: |p| < j < |n| ==> n[j] == rest[j - |p| - 1];
    assert LastDot(n) == Some(|p|);
  }

  lemma NoDotInSmith()
    ensures '.' !in ToLower("smith")
  {
  }

  // A section does not extend itself.
  lemma NoAncestor(store: Store, name: string, key: string)
    requires store.Keys == {name}
    ensures Ancestor(store, name, key).None?
  {
  }

  // Two logins on one server, joe and joe.smith, in a store that inherits keys.
  ghost predicate JoeAndSmith(lib: Library, joe: Identity, smith: Identity) {
    && lib.inherits && GoodIdentity(joe) && GoodIdentity(smith) && smith.host == joe.host && smith.port == joe.port
    && joe.login == "joe" && smith.login == "joe.smith"
  }

  function OnlyJoe(joe: Identity, t: string): Store {
    map[StoredName(joe) := map["token" := t]]
  }

  lemma ReadsParent(lib: Library, p: string, rest: string, t: string)
    requires lib.inherits && '.' !in rest
    ensures var file: Store, n := map[p := map["token" := t]], p + "." + rest;
            && n != p && Extends(n, p) && Ancestor(file, n, "token") == Some(p) && Ancestor(file, p, "token").None?
            && HomeOf(lib, file, n, "token") == p && ValueOf(lib, file, n, "token") == t
  {
    var file: Store := map[p := map["token" := t]];
    ParentIsAncestor(file, p, rest, "token");
    NoAncestor(file, p, "token");
  }

  lemma SmithReadsJoe(lib: Library, joe: Identity, smith: Identity, t: string)
    requires JoeAndSmith(lib, joe, smith)
    ensures var file, j, n := OnlyJoe(joe, t), StoredName(joe), StoredName(smith);
            && n != j && Extends(n, j) && Ancestor(file, n, "token") == Some(j) && Ancestor(file, j, "token").None?
            && HomeOf(lib, file, n, "token") == j && TokenOf(lib, file, smith) == t
  {
    SmithExtendsJoe(joe, smith);
    NoDotInSmith();
    ReadsParent(lib, StoredName(joe), ToLower("smith"), t);
  }

  lemma SmithExtendsJoe(joe: Identity, smith: Identity)
    requires smith.host == joe.host && smith.port == joe.port && joe.login == "joe" && smith.login == "joe.smith"
    ensures StoredName(smith) == StoredName(joe) + "." + ToLower("smith")
  {
    assert "joe.smith" == "joe" + "." + "smith";
    ChildName(joe, smith, "smith");
  }

  // joe is logged in and joe.smith is not: an update for joe changes the token read for joe.smith, ...
  lemma JoeUpdates(lib: Library, joe: Identity, smith: Identity, t: string, u: string)
    requires JoeAndSmith(lib, joe, smith) && u != ""
    ensures var file := OnlyJoe(joe, t);
            && TokenOf(lib, file, smith) == t
            && TokenOf(lib, RunCommand(lib, file, Update(joe, u, true, true)), smith) == u
  {
    SmithReadsJoe(lib, joe, smith, t);
    ReadAfterUpdate(lib, OnlyJoe(joe, t), Update(joe, u, true, true), StoredName(smith));
    assert WrittenSection(lib, OnlyJoe(joe, t), joe) == StoredName(joe);
  }

  // ... a logout of joe takes it away, ...
  lemma JoeLogsOut(lib: Library, joe: Identity, smith: Identity, t: string)
    requires JoeAndSmith(lib, joe, smith)
    ensures TokenOf(lib, RunCommand(lib, OnlyJoe(joe, t), LogOut(joe, true, true, true)), smith) == ""
  {
    var file, logout := OnlyJoe(joe, t), LogOut(joe, true, true, true);
    SmithReadsJoe(lib, joe, smith, t);
    LogoutRemovesKey(lib, file, logout);
    ReadAfterRemoval(lib, file, RunCommand(lib, file, logout), StoredName(joe), "token", StoredName(smith));
  }

  // ... and an update for joe.smith changes joe's.
  lemma SmithUpdates(lib: Library, joe: Identity, smith: Identity, t: string, u: string)
    requires JoeAndSmith(lib, joe, smith) && u != ""
    ensures TokenOf(lib, RunCommand(lib, OnlyJoe(joe, t), Update(smith, u, true, true)), joe) == u
  {
    SmithReadsJoe(lib, joe, smith, t);
    AncestorIsOverwritten(lib, OnlyJoe(joe, t), smith, u, joe);
  }
}
