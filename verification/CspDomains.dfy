/** Attributes of cloud service provider domains, and the cache of their clients. */
module CspDomains {
  import opened Wrappers
  import opened SortedKeys

  datatype Value = Value(kind: string, value: string)

  type Attributes = map<string, Value>

  datatype Descriptor = Descriptor(kind: string, immutable: bool, optional: bool)

  // ---------- validation ----------

  datatype AttributeError =
    | Required(name: string)
    | WrongKind(name: string)
    | BadValue(name: string)
    | CannotModify(name: string)
    | Unknown(name: string)

  // An absent attribute reads as the empty value.
  function ValueAt(attrs: Attributes, name: string): string {
    if name in attrs then attrs[name].value else ""
  }

  // One attribute is as described, given the attributes before the update (None on creation).
  predicate Fits(d: Descriptor, isValid: Value -> bool, old': Option<Attributes>, attrs: Attributes, name: string) {
    if name !in attrs then d.optional
    else
      && attrs[name].kind == d.kind && isValid(attrs[name])
      && (old'.Some? && d.immutable ==> attrs[name].value == ValueAt(old'.value, name))
  }

  ghost predicate Acceptable(descs: map<string, Descriptor>, isValid: Value -> bool, old': Option<Attributes>,
                             attrs: Attributes) {
    && (forall name :: name in descs ==> Fits(descs[name], isValid, old', attrs, name))
    && attrs.Keys <= descs.Keys
  }

  // The error names something that is wrong.
  ghost predicate Justified(descs: map<string, Descriptor>, isValid: Value -> bool, old': Option<Attributes>,
                            attrs: Attributes,
                            error: AttributeError) {
    match error
    case Required(name) => name in descs && !descs[name].optional && name !in attrs
    case WrongKind(name) => name in descs && name in attrs && attrs[name].kind != descs[name].kind
    case BadValue(name) => name in descs && name in attrs && !isValid(attrs[name])
    case CannotModify(name) =>
      name in descs && name in attrs && descs[name].immutable && old'.Some? &&
        attrs[name].value != ValueAt(old'.value, name)
    case Unknown(name) => name in attrs && name !in descs
  }

  // Attributes are acceptable exactly when no error could be justified: every required one is given, and every one
  // given is described, of the right kind, valid, and the old value if it is immutable.
  lemma AcceptableIffNoFault(descs: map<string, Descriptor>, isValid: Value -> bool, old': Option<Attributes>,
                             attrs: Attributes)
    ensures Acceptable(descs, isValid, old', attrs) <==>
              forall error: AttributeError :: !Justified(descs, isValid, old', attrs, error)
  {
    if Acceptable(descs, isValid, old', attrs) {
      forall error: AttributeError
        ensures !Justified(descs, isValid, old', attrs, error)
      {
        if error.name in descs {
          assert Fits(descs[error.name], isValid, old', attrs, error.name);
        }
      }
    } else if !(attrs.Keys <= descs.Keys) {
      var name :| name in attrs && name !in descs;
      assert Justified(descs, isValid, old', attrs, Unknown(name));
    } else {
      var name :| name in descs && !Fits(descs[name], isValid, old', attrs, name);
      assert || Justified(descs, isValid, old', attrs, Required(name))
             || Justified(descs, isValid, old', attrs, WrongKind(name))
             || Justified(descs, isValid, old', attrs, BadValue(name))
             || Justified(descs, isValid, old', attrs, CannotModify(name));
    }
  }

  // The maps are ranged over in any order; acceptance does not depend on it.
  method ValidateBasicAttributes(descs: map<string, Descriptor>, isValid: Value -> bool, old': Option<Attributes>,
                                 attrs: Attributes)
    returns (error: Option<AttributeError>)
    ensures error.None? <==> Acceptable(descs, isValid, old', attrs)
    ensures error.Some? ==> Justified(descs, isValid, old', attrs, error.value)
  {
    var rest := descs.Keys;
    while rest != {}
      invariant rest <= descs.Keys
      invariant forall name :: name in descs && name !in rest ==> Fits(descs[name], isValid, old', attrs, name)
      decreases |rest|
    {
      var name :| name in rest;
      rest := rest - {name};
      var desc := descs[name];
      if name !in attrs {
        if !desc.optional {
          return Some(Required(name));
        }
        continue;
      }
      var a := attrs[name];
      if a.kind != desc.kind {
        return Some(WrongKind(name));
      }
      if !isValid(a) {
        return Some(BadValue(name));
      }
      if old'.Some? && desc.immutable && a.value != (if name in old'.value then old'.value[name].value else "") {
        return Some(CannotModify(name));
      }
    }
    rest := attrs.Keys;
    while rest != {}
      invariant rest <= attrs.Keys
      invariant forall name :: name in attrs && name !in rest ==> name in descs
      decreases |rest|
    {
      var name :| name in rest;
      rest := rest - {name};
      if name !in descs {
        return Some(Unknown(name));
      }
    }
    error := None;
  }

  // ---------- histories of updates ----------

  // The attributes at creation, and after each accepted update.
  ghost predicate IsHistory(descs: map<string, Descriptor>, isValid: Value -> bool, h: seq<Attributes>) {
    && h != [] && Acceptable(descs, isValid, None, h[0])
    && forall i :: 0 <= i < |h| - 1 ==> Acceptable(descs, isValid, Some(h[i]), h[i + 1])
  }

  // An accepted update keeps the value of an immutable attribute exactly when it gives the attribute, or
  // there was no value to keep.
  lemma ImmutableStep(descs: map<string, Descriptor>, isValid: Value -> bool, before: Attributes, after: Attributes,
                      name: string)
    requires Acceptable(descs, isValid, Some(before), after) && name in descs && descs[name].immutable
    ensures ValueAt(after, name) == ValueAt(before, name) <==> name in after || ValueAt(before, name) == ""
    ensures name !in after ==> descs[name].optional
    ensures name in after ==> after[name].kind == descs[name].kind
  {
    assert Fits(descs[name], isValid, Some(before), after, name);
  }

  // The immutable attributes that are given have the values they had.
  ghost predicate KeepsImmutables(descs: map<string, Descriptor>, before: Attributes, after: Attributes) {
    forall name :: name in descs && name in after && descs[name].immutable ==>
      after[name].value == ValueAt(before, name)
  }

  // The check against the old attributes adds exactly this to what is checked without them: against a nil map
  // the values are kept when this happens to hold, and not otherwise.
  lemma NilSkipsImmutables(descs: map<string, Descriptor>, isValid: Value -> bool, before: Attributes,
                           after: Attributes)
    ensures Acceptable(descs, isValid, Some(before), after) <==>
              Acceptable(descs, isValid, None, after) && KeepsImmutables(descs, before, after)
  {
    if Acceptable(descs, isValid, Some(before), after) {
      forall name | name in descs
        ensures Fits(descs[name], isValid, None, after, name)
        ensures name in after && descs[name].immutable ==> after[name].value == ValueAt(before, name)
      {
        assert Fits(descs[name], isValid, Some(before), after, name);
      }
    }
    if Acceptable(descs, isValid, None, after) && KeepsImmutables(descs, before, after) {
      forall name | name in descs
        ensures Fits(descs[name], isValid, Some(before), after, name)
      {
        assert Fits(descs[name], isValid, None, after, name);
      }
    }
  }

  // A required immutable attribute keeps its first value for ever.
  lemma {:induction false} RequiredImmutableIsKept(descs: map<string, Descriptor>, isValid: Value -> bool,
                                                   h: seq<Attributes>, i: nat, name: string)
    requires IsHistory(descs, isValid, h) && i < |h|
    requires name in descs && descs[name].immutable && !descs[name].optional
    ensures name in h[i] && name in h[0] && h[i][name] == h[0][name]
  {
    assert Fits(descs[name], isValid, None, h[0], name);
    if i > 0 {
      RequiredImmutableIsKept(descs, isValid, h, i - 1, name);
      assert Acceptable(descs, isValid, Some(h[i - 1]), h[i - 1 + 1]);
      ImmutableStep(descs, isValid, h[i - 1], h[i], name);
    }
  }

  // An optional one keeps its first value until it is left out or empty, and is empty or left out ever after.
  lemma {:induction false} OptionalImmutableIsKeptOrGone(descs: map<string, Descriptor>, isValid: Value -> bool,
                                                         h: seq<Attributes>, i: nat, j: nat, name: string)
    requires IsHistory(descs, isValid, h) && i <= j < |h|
    requires name in descs && descs[name].immutable
    ensures ValueAt(h[j], name) == ValueAt(h[i], name) || ValueAt(h[j], name) == ""
    decreases j - i
  {
    if i < j {
      OptionalImmutableIsKeptOrGone(descs, isValid, h, i, j - 1, name);
      assert Acceptable(descs, isValid, Some(h[j - 1]), h[j - 1 + 1]);
      ImmutableStep(descs, isValid, h[j - 1], h[j], name);
    }
  }

  // So what was absent at creation never gets a value, and what was cleared never returns.
  lemma ClearedStaysCleared(descs: map<string, Descriptor>, isValid: Value -> bool, h: seq<Attributes>, i: nat,
                            j: nat, name: string)
    requires IsHistory(descs, isValid, h) && i <= j < |h|
    requires name in descs && descs[name].immutable && ValueAt(h[i], name) == ""
    ensures ValueAt(h[j], name) == ""
  {
    OptionalImmutableIsKeptOrGone(descs, isValid, h, i, j, name);
  }

  // Leaving out an optional immutable attribute is accepted, so immutable does not mean that it stays; and
  // against a nil map of old attributes any change is.
  lemma ImmutableMayChange(isValid: Value -> bool, kept: Value, changed: Value)
    requires isValid(kept) && isValid(changed) && kept.kind == changed.kind == "STRING"
    ensures var descs := map["a" := Descriptor("STRING", true, true)];
            && IsHistory(descs, isValid, [map["a" := kept], map[]])
            && Acceptable(descs, isValid, None, map["a" := changed])
            && (kept.value != changed.value ==>
                  !Acceptable(descs, isValid, Some(map["a" := kept]), map["a" := changed]))
  {
    var descs := map["a" := Descriptor("STRING", true, true)];
    var h: seq<Attributes> := [map["a" := kept], map[]];
    assert Acceptable(descs, isValid, None, h[0]);
    assert Acceptable(descs, isValid, Some(h[0]), h[1]);
    assert "a" in descs;
    assert kept.value != changed.value ==> !Fits(descs["a"], isValid, Some(h[0]), map["a" := changed], "a");
  }

  // ---------- the clients ----------

  datatype Meta = Meta(id: string, version: int)

  datatype Domain = Domain(meta: Option<Meta>, domainType: string, attributes: Attributes)

  // A client, and the object it was built from.
  datatype Client = Client(serial: nat, builtFrom: Domain)

  datatype ClientRecord = ClientRecord(version: int, client: Client, attrValSHA: string)

  datatype ClientError = InvalidDomainType | BuildFailed

  // The providers by domain type, and the client records by object ID.
  datatype Caches = Caches(providers: set<string>, clients: map<string, ClientRecord>)

  function Concat(attrs: Attributes, keys: seq<string>, n: nat): string
    requires n <= |keys|
  {
    if n == 0 then "" else Concat(attrs, keys, n - 1) + ValueAt(attrs, keys[n - 1])
  }

  // What is hashed: the values in key order.
  ghost function HashedText(attrs: Attributes): string {
    Concat(attrs, SortedList(attrs.Keys), |SortedList(attrs.Keys)|)
  }

  ghost function SHA(hash: string -> string, d: Domain): string {
    hash(HashedText(d.attributes))
  }

  function IDOf(d: Domain): string {
    if d.meta.Some? then d.meta.value.id else ""
  }

  function VersionOf(d: Domain): int {
    if d.meta.Some? then d.meta.value.version else 0
  }

  // The object has a record that fits.
  ghost predicate Hit(hash: string -> string, c: Caches, d: Domain) {
    && d.meta.Some? && IDOf(d) in c.clients
    && c.clients[IDOf(d)].version == VersionOf(d) && c.clients[IDOf(d)].attrValSHA == SHA(hash, d)
  }

  // A request for the client of d, when a provider of its type can be created or not, and the provider
  // builds a client of that serial number or fails.
  datatype Request = Request(d: Domain, providerWorks: bool, built: Option<nat>)

  ghost function WithProvider(c: Caches, r: Request): Caches {
    if r.d.domainType in c.providers || r.providerWorks then c.(providers := c.providers + {r.d.domainType}) else c
  }

  ghost predicate Builds(hash: string -> string, c: Caches, r: Request) {
    !Hit(hash, c, r.d) && r.d.domainType in WithProvider(c, r).providers && r.built.Some?
  }

  ghost function NewRecord(hash: string -> string, r: Request): ClientRecord
    requires r.built.Some?
  {
    ClientRecord(VersionOf(r.d), Client(r.built.value, r.d), SHA(hash, r.d))
  }

  ghost function After(hash: string -> string, c: Caches, r: Request): Caches {
    if Hit(hash, c, r.d) then c
    else if Builds(hash, c, r) && IDOf(r.d) != "" then
      WithProvider(c, r).(clients := c.clients[IDOf(r.d) := NewRecord(hash, r)])
    else WithProvider(c, r)
  }

  ghost function Answer(hash: string -> string, c: Caches, r: Request): Result<Client, ClientError> {
    if Hit(hash, c, r.d) then Success(c.clients[IDOf(r.d)].client)
    else if r.d.domainType !in WithProvider(c, r).providers then Failure(InvalidDomainType)
    else if r.built.None? then Failure(BuildFailed)
    else Success(Client(r.built.value, r.d))
  }

  class AppCtx {
    const hash: string -> string
    var cspCache: set<string>
    var cspClientCache: map<string, ClientRecord>

    constructor (hash: string -> string)
      ensures this.hash == hash && State() == Caches({}, map[])
    {
      this.hash, cspCache, cspClientCache := hash, {}, map[];
    }

    function State(): Caches
      reads this
    {
      Caches(cspCache, cspClientCache)
    }

    method MakeAttrValSHA(d: Domain) returns (sha: string)
      ensures sha == SHA(hash, d)
    {
      var keys := SortedStringKeys(d.attributes);
      SortedUnique(keys, SortedList(d.attributes.Keys), d.attributes.Keys);
      var written := "";
      for i := 0 to |keys|
        invariant forall k :: 0 <= k < |keys| ==> keys[k] in d.attributes
        invariant written == Concat(d.attributes, keys, i)
      {
        written := written + d.attributes[keys[i]].value;
      }
      sha := hash(written);
    }

    method Csp(domainType: string, providerWorks: bool) returns (found: bool)
      modifies this`cspCache
      ensures found <==> domainType in old(cspCache) || providerWorks
      ensures cspCache == if found then old(cspCache) + {domainType} else old(cspCache)
    {
      if domainType in cspCache {
        assert cspCache == cspCache + {domainType};
        return true;
      }
      if providerWorks {
        cspCache := cspCache + {domainType};
      }
      found := providerWorks;
    }

    method GetDomainClient(r: Request) returns (client: Result<Client, ClientError>)
      modifies this
      ensures State() == After(hash, old(State()), r)
      ensures client == Answer(hash, old(State()), r)
    {
      var id, version := "", 0;
      var attrValSHA := MakeAttrValSHA(r.d);
      if r.d.meta.Some? {
        id, version := r.d.meta.value.id, r.d.meta.value.version;
        if id in cspClientCache && cspClientCache[id].version == version &&
           cspClientCache[id].attrValSHA == attrValSHA {
          return Success(cspClientCache[id].client);
        }
      }
      var found := Csp(r.d.domainType, r.providerWorks);
      if !found {
        return Failure(InvalidDomainType);
      }
      if r.built.None? {
        return Failure(BuildFailed);
      }
      var cl := Client(r.built.value, r.d);
      if id != "" {
        cspClientCache := cspClientCache[id := ClientRecord(version, cl, attrValSHA)];
      }
      client := Success(cl);
    }
  }

  // ---------- the cache over every sequence of requests ----------

  ghost predicate IsRun(hash: string -> string, caches: seq<Caches>, requests: seq<Request>) {
    && |caches| == |requests| + 1 && caches[0] == Caches({}, map[])
    && forall i :: 0 <= i < |requests| ==> caches[i + 1] == After(hash, caches[i], requests[i])
  }

  // The i-th request built the client now on record for the ID, and no request since built one for it.
  ghost predicate LatestBuild(hash: string -> string, caches: seq<Caches>, requests: seq<Request>, i: nat, n: nat,
                              id: string)
    requires i < n <= |requests| && |caches| == |requests| + 1
  {
    && IDOf(requests[i].d) == id && Builds(hash, caches[i], requests[i])
    && forall k :: i < k < n ==> IDOf(requests[k].d) != id || !Builds(hash, caches[k], requests[k])
  }

  // A record is that of the last request that built a client for its ID, and no record has an empty ID.
  lemma {:induction false} RecordIsLatestBuild(hash: string -> string, caches: seq<Caches>, requests: seq<Request>,
                                               n: nat, id: string)
    requires IsRun(hash, caches, requests) && n < |caches| && id in caches[n].clients
    ensures id != "" && exists i: nat :: i < n && LatestBuild(hash, caches, requests, i, n, id) &&
                                       caches[n].clients[id] == NewRecord(hash, requests[i])
  {
    assert n > 0;
    var r, c := requests[n - 1], caches[n - 1];
    assert caches[n - 1 + 1] == After(hash, c, r);
    if Builds(hash, c, r) && IDOf(r.d) == id {
      if id != "" {
        assert LatestBuild(hash, caches, requests, n - 1, n, id);
      } else {
        RecordIsLatestBuild(hash, caches, requests, n - 1, id);
      }
    } else {
      RecordIsLatestBuild(hash, caches, requests, n - 1, id);
      var i: nat :| i < n - 1 && LatestBuild(hash, caches, requests, i, n - 1, id) &&
                    caches[n - 1].clients[id] == NewRecord(hash, requests[i]);
      assert LatestBuild(hash, caches, requests, i, n, id);
    }
  }

  // Over every run, a client handed out for an object with metadata was built from an object of the same
  // ID, version and hash: the object itself, or that of the last request that built one for the ID.
  lemma ClientsAgree(hash: string -> string, caches: seq<Caches>, requests: seq<Request>, n: nat)
    requires IsRun(hash, caches, requests) && n < |requests| && requests[n].d.meta.Some?
    requires Answer(hash, caches[n], requests[n]).Success?
    ensures var d, from := requests[n].d, Answer(hash, caches[n], requests[n]).value.builtFrom;
            && from.meta.Some? && from.meta.value.id == d.meta.value.id
            && from.meta.value.version == d.meta.value.version
            && hash(HashedText(from.attributes)) == hash(HashedText(d.attributes))
            && (from == d ||
                exists i: nat :: i < n && LatestBuild(hash, caches, requests, i, n, IDOf(d)) && from == requests[i].d)
  {
    var d := requests[n].d;
    if Hit(hash, caches[n], d) {
      RecordIsLatestBuild(hash, caches, requests, n, IDOf(d));
    }
  }

  // A failure changes no record; an object without an ID is never cached, nor served from the cache.
  lemma FailureChangesNoRecord(hash: string -> string, c: Caches, r: Request)
    requires Answer(hash, c, r).Failure? || IDOf(r.d) == ""
    ensures After(hash, c, r).clients == c.clients
    ensures IDOf(r.d) == "" && "" !in c.clients && Answer(hash, c, r).Success? ==>
              r.built.Some? && Answer(hash, c, r).value == Client(r.built.value, r.d)
  {
  }

  // ---------- different attributes with one hash ----------

  // The latest build for an ID is on record.
  lemma {:induction false} LatestBuildIsOnRecord(hash: string -> string, caches: seq<Caches>,
                                                 requests: seq<Request>, i: nat, n: nat, id: string)
    requires IsRun(hash, caches, requests) && i < n <= |requests| && id != ""
    requires LatestBuild(hash, caches, requests, i, n, id)
    ensures id in caches[n].clients && caches[n].clients[id] == NewRecord(hash, requests[i])
  {
    assert caches[n - 1 + 1] == After(hash, caches[n - 1], requests[n - 1]);
    if i < n - 1 {
      LatestBuildIsOnRecord(hash, caches, requests, i, n - 1, id);
    }
  }

  // Over every run, with a hash without collisions, the client of the latest build for an ID is served exactly
  // to an object of the version and the hashed text that one was built from.
  lemma ServedIffSameText(hash: string -> string, caches: seq<Caches>, requests: seq<Request>, i: nat, n: nat)
    requires forall x, y :: hash(x) == hash(y) ==> x == y
    requires IsRun(hash, caches, requests) && i < n < |requests|
    requires requests[n].d.meta.Some? && requests[n].d.meta.value.id != ""
    requires LatestBuild(hash, caches, requests, i, n, requests[n].d.meta.value.id)
    ensures var from, d := requests[i].d, requests[n].d;
            && from.meta.Some? && from.meta.value.id == d.meta.value.id
            && (Hit(hash, caches[n], d) <==>
                  && from.meta.value.version == d.meta.value.version
                  && HashedText(from.attributes) == HashedText(d.attributes))
            && (Hit(hash, caches[n], d) ==> Answer(hash, caches[n], requests[n]).Success? &&
                                            Answer(hash, caches[n], requests[n]).value.builtFrom == from)
  {
    LatestBuildIsOnRecord(hash, caches, requests, i, n, IDOf(requests[n].d));
  }

  lemma {:induction false} SameLengthsConcat(a: Attributes, b: Attributes, keys: seq<string>, n: nat)
    requires n <= |keys| && forall i :: 0 <= i < n ==> |ValueAt(a, keys[i])| == |ValueAt(b, keys[i])|
    ensures |Concat(a, keys, n)| == |Concat(b, keys, n)|
    ensures Concat(a, keys, n) == Concat(b, keys, n) <==>
              forall i :: 0 <= i < n ==> ValueAt(a, keys[i]) == ValueAt(b, keys[i])
  {
    if n > 0 {
      SameLengthsConcat(a, b, keys, n - 1);
      SplitEqual(Concat(a, keys, n - 1), ValueAt(a, keys[n - 1]), Concat(b, keys, n - 1), ValueAt(b, keys[n - 1]));
    }
  }

  lemma SplitEqual(x: string, u: string, y: string, v: string)
    requires |x| == |y|
    ensures x + u == y + v <==> x == y && u == v
  {
    assert (x + u)[..|x|] == x && (y + v)[..|y|] == y;
    assert (x + u)[|x|..] == u && (y + v)[|y|..] == v;
  }

  // Attributes of the same names, with values of the same lengths, are told apart.
  lemma SameLengthsAreToldApart(a: Attributes, b: Attributes)
    requires a.Keys == b.Keys && forall k :: k in a ==> |a[k].value| == |b[k].value|
    ensures HashedText(a) == HashedText(b) <==> forall k :: k in a ==> a[k].value == b[k].value
  {
    var keys := SortedList(a.Keys);
    assert forall i :: 0 <= i < |keys| ==> keys[i] in a;
    SameLengthsConcat(a, b, keys, |keys|);
    if HashedText(a) == HashedText(b) {
      forall k | k in a
        ensures a[k].value == b[k].value
      {
        assert k in keys;
        var i :| 0 <= i < |keys| && keys[i] == k;
        assert ValueAt(a, keys[i]) == ValueAt(b, keys[i]);
      }
    }
  }

  lemma HashedTextOfTwo(x: string, y: string)
    ensures HashedText(map["a" := Value("STRING", x), "b" := Value("STRING", y)]) == x + y
  {
    var attrs := map["a" := Value("STRING", x), "b" := Value("STRING", y)];
    var keys := ["a", "b"];
    assert attrs.Keys == {"a", "b"};
    assert "b"[0] > "a"[0];
    assert LessOrEqual("a", "b") && "a" != "b";
    assert SortedKeysOf(keys, attrs.Keys);
    SortedUnique(keys, SortedList(attrs.Keys), attrs.Keys);
    assert Concat(attrs, keys, 1) == "" + x == x;
    assert Concat(attrs, keys, 2) == x + y;
  }

  // The values are hashed without a separator, so an object whose value moved from one attribute to
  // another is served the client built before, unless its version changed.
  lemma MovedValueIsNotNoticed(hash: string -> string, c: Caches, x: string, y: string, serial: nat)
    requires c.clients == map[]
    ensures var d := Domain(Some(Meta("id", 1)), "AWS", map["a" := Value("STRING", x), "b" := Value("STRING", y)]);
            var d' := d.(attributes := map["a" := Value("STRING", x + y), "b" := Value("STRING", "")]);
            var c' := After(hash, c, Request(d, true, Some(serial)));
            Answer(hash, c', Request(d', true, None)) == Success(Client(serial, d))
  {
    HashedTextOfTwo(x, y);
    HashedTextOfTwo(x + y, "");
    assert (x + y) + "" == x + y;
  }
}
