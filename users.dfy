/**
 * The user collection behind POST /api/user (upsert by id, merging the
 * submitted profile over the stored one) and GET /api/user/:id (lookup).
 */
module Users {
  import opened Wrappers
  import opened Json
  import opened Collection

  /**
   * The five profile fields of `req.body`. A multipart form gives strings,
   * and a JSON body (the JSON parser runs on every route) may give any JSON
   * value; a field the client did not send is Undefined.
   */
  datatype UserForm = UserForm(
    id: Value,
    nickname: Value,
    password: Value,
    createdAt: Value,
    loginTime: Value)

  /** What GET /api/user/:id answers: the stored user, or the `{userFound: false}` sentinel. */
  datatype LookupResult = UserFound(user: Record) | UserNotFound

  /** The six properties of every submitted user object. */
  const SubmittedKeys: set<string> := {"id", "nickname", "password", "image", "createdAt", "loginTime"}

  /**
   * The object built from the request: the five body fields, and `image`, the
   * stored path of the uploaded file or null when no file was sent.
   */
  function NewUser(form: UserForm, upload: Option<string>): (u: Record)
    ensures u.Keys == SubmittedKeys
    ensures u["image"] == if upload.Some? then Str(upload.value) else Null
    ensures Get(u, "id") == form.id
    ensures u["nickname"] == form.nickname && u["password"] == form.password
    ensures u["createdAt"] == form.createdAt && u["loginTime"] == form.loginTime
  {
    map[
      "id" := form.id,
      "nickname" := form.nickname,
      "password" := form.password,
      "image" := if upload.Some? then Str(upload.value) else Null,
      "createdAt" := form.createdAt,
      "loginTime" := form.loginTime]
  }

  /**
   * The users after the upsert of `u`: merged into the first user whose id
   * is strictly equal to `u.id`, or appended when there is none.
   */
  function Upserted(users: seq<Record>, u: Record): (r: seq<Record>)
    ensures FindIndex(users, "id", Get(u, "id")).None? ==> r == users + [u]
    ensures FindIndex(users, "id", Get(u, "id")).Some? ==> |r| == |users|
  {
    match MergeFirst(users, "id", Get(u, "id"), u)
    case Some(c) => c
    case None => users + [u]
  }

  /** `users.find(u => u.id === id)`, with the sentinel for no match. */
  function Lookup(users: seq<Record>, id: string): (r: LookupResult)
    ensures r.UserNotFound? <==> forall j :: 0 <= j < |users| ==> !Matches(users[j], "id", Str(id))
    ensures r.UserFound? ==> exists i :: 0 <= i < |users| && r.user == users[i] && Matches(users[i], "id", Str(id)) &&
                                         (forall j :: 0 <= j < i ==> !Matches(users[j], "id", Str(id)))
  {
    match FindIndex(users, "id", Str(id))
    case Some(i) => UserFound(users[i])
    case None => UserNotFound
  }

  /**
   * Upsert touches one index: an existing id (first strict match) is merged
   * in place and the length is kept; otherwise `u` is appended. No other
   * index changes.
   */
  lemma UpsertedAt(users: seq<Record>, u: Record)
    ensures FindIndex(users, "id", Get(u, "id")).None? ==> Upserted(users, u) == users + [u]
    ensures FindIndex(users, "id", Get(u, "id")).Some? ==>
      var i := FindIndex(users, "id", Get(u, "id")).value;
      Upserted(users, u) == users[i := Spread(users[i], u)]
  {
    MergeFirstAt(users, "id", Get(u, "id"), u);
  }

  /**
   * Merging a submitted profile into user `i` keeps the stored properties the
   * form does not carry and overrides all six submitted ones; in particular
   * an upsert without an uploaded file sets `image` to null.
   */
  lemma UpsertMergesFields(users: seq<Record>, form: UserForm, upload: Option<string>, i: nat)
    requires FindIndex(users, "id", form.id) == Some(i)
    ensures var r := Upserted(users, NewUser(form, upload));
      && |r| == |users|
      && (forall k :: k in users[i] && k !in SubmittedKeys ==> k in r[i] && r[i][k] == users[i][k])
      && (forall k :: k in SubmittedKeys ==> k in r[i] && r[i][k] == NewUser(form, upload)[k])
      && (upload.None? ==> r[i]["image"] == Null)
  {
    UpsertedAt(users, NewUser(form, upload));
  }

  /** Replacing a record that does not match by another that does not leaves the first match where it was. */
  lemma FindIndexAfterReplace(c: seq<Record>, i: nat, x: Record, key: Value)
    requires i < |c|
    requires !Matches(c[i], "id", key) && !Matches(x, "id", key)
    ensures FindIndex(c[i := x], "id", key) == FindIndex(c, "id", key)
  {
    FindIndexSameMatches(c[i := x], c, "id", key);
  }

  /** After an upsert of a user with id `s`, looking up `s` finds the submitted profile. */
  lemma LookupAfterUpsertSame(users: seq<Record>, u: Record, s: string)
    requires Get(u, "id") == Str(s)
    ensures Lookup(Upserted(users, u), s).UserFound?
    ensures forall k :: k in u ==> k in Lookup(Upserted(users, u), s).user && Lookup(Upserted(users, u), s).user[k] == u[k]
  {
    UpsertedAt(users, u);
    var r := Upserted(users, u);
    match FindIndex(users, "id", Str(s))
    case Some(i) =>
      assert r == users[i := Spread(users[i], u)];
      assert Get(r[i], "id") == Str(s);
      assert forall j :: 0 <= j < i ==> r[j] == users[j];
      assert FindIndex(r, "id", Str(s)) == Some(i);
    case None =>
      assert r == users + [u];
      assert Matches(r[|users|], "id", Str(s));
      assert FindIndex(r, "id", Str(s)) == Some(|users|);
  }

  /** An upsert of a user with id `s` does not change what any other id looks up. */
  lemma LookupAfterUpsertOther(users: seq<Record>, u: Record, s: string, t: string)
    requires Get(u, "id") == Str(s) && t != s
    ensures Lookup(Upserted(users, u), t) == Lookup(users, t)
  {
    UpsertedAt(users, u);
    match FindIndex(users, "id", Str(s))
    case Some(i) =>
      assert Get(Spread(users[i], u), "id") == Str(s);
      FindIndexAfterReplace(users, i, Spread(users[i], u), Str(t));
      var j := FindIndex(users, "id", Str(t));
      if j.Some? {
        assert j.value != i;
      }
    case None =>
      FindIndexAppendMiss(users, u, "id", Str(t));
      var j := FindIndex(users, "id", Str(t));
      if j.Some? {
        assert (users + [u])[j.value] == users[j.value];
      }
  }

  /** Two users with different ids upserted one after the other are both retrievable, each with its own profile. */
  lemma UpsertTwoDistinct(users: seq<Record>, u1: Record, u2: Record, s1: string, s2: string)
    requires Get(u1, "id") == Str(s1) && Get(u2, "id") == Str(s2) && s1 != s2
    ensures var after := Upserted(Upserted(users, u1), u2);
      && Lookup(after, s1).UserFound? && Lookup(after, s2).UserFound?
      && (forall k :: k in u1 ==> k in Lookup(after, s1).user && Lookup(after, s1).user[k] == u1[k])
      && (forall k :: k in u2 ==> k in Lookup(after, s2).user && Lookup(after, s2).user[k] == u2[k])
  {
    LookupAfterUpsertSame(users, u1, s1);
    LookupAfterUpsertOther(Upserted(users, u1), u2, s2, s1);
    LookupAfterUpsertSame(Upserted(users, u1), u2, s2);
  }

  /**
   * A user stored with a non-string id (a JSON body such as `{"id": 7}`) is
   * never found by GET /api/user/:id, whose id is always a string: if no
   * user answered to `s` before, none does after.
   */
  lemma NonStringIdIsNotFound(users: seq<Record>, u: Record, s: string)
    requires !Get(u, "id").Str?
    requires Lookup(users, s) == UserNotFound
    ensures Lookup(Upserted(users, u), s) == UserNotFound
  {
    UpsertedAt(users, u);
    match FindIndex(users, "id", Get(u, "id"))
    case Some(i) =>
      assert Get(Spread(users[i], u), "id") == Get(u, "id");
      FindIndexAfterReplace(users, i, Spread(users[i], u), Str(s));
    case None =>
      FindIndexAppendMiss(users, u, "id", Str(s));
  }
}
