/** The token store of auth.py. The `users` object of the configuration is
    given as loaded: the user names in the order the JSON object lists them
    (Python dicts keep insertion order) and each name's token and permission
    level. The token table is built from it once and never changed. */
module Auth {
  import opened Wrappers

  /** One user's entry in the configuration. */
  datatype UserEntry = UserEntry(token: string, permissions: string)

  /** The configured users, as a Python dict: keys in insertion order. */
  datatype Users = Users(names: seq<string>, entries: map<string, UserEntry>)
  {
    ghost predicate Valid()
    {
      && (forall i, j :: 0 <= i < j < |names| ==> names[i] != names[j])
      && (forall n :: n in entries <==> n in names)
    }
  }

  type Config = u: Users | u.Valid() witness Users([], map[])

  /** `users.items()` reduced to what the token table needs: each
      configured user exactly once, in the dict's order, with its token. */
  function Items(users: Config): (items: seq<(string, string)>)
    ensures forall i, j :: 0 <= i < j < |items| ==> items[i].0 != items[j].0
    ensures forall n :: n in users.entries <==> exists i :: 0 <= i < |items| && items[i].0 == n
    ensures forall i :: 0 <= i < |items| ==>
      items[i].0 in users.entries && users.entries[items[i].0].token == items[i].1
  {
    var items := seq(|users.names|, i requires 0 <= i < |users.names| =>
      (users.names[i], users.entries[users.names[i]].token));
    assert forall n :: n in users.entries ==> exists i :: 0 <= i < |items| && items[i].0 == n by {
      forall n | n in users.entries ensures exists i :: 0 <= i < |items| && items[i].0 == n {
        var i :| 0 <= i < |users.names| && users.names[i] == n;
        assert items[i].0 == n;
      }
    }
    items
  }

  /** Some user among the first `n` items owns token `t`. */
  ghost predicate OwnedBefore(items: seq<(string, string)>, t: string, n: int)
  {
    exists i :: 0 <= i < n && i < |items| && items[i].1 == t
  }

  /** The user at position `i` owns token `t` and no later user among the
      first `n` does. */
  ghost predicate LastOwnerBefore(items: seq<(string, string)>, t: string, i: int, n: int)
  {
    && 0 <= i < n <= |items|
    && items[i].1 == t
    && (forall j :: i < j < n ==> items[j].1 != t)
  }

  /** The user at position `i` is the last one configured with token `t`:
      the owner that a dict comprehension over the users keeps for `t`. */
  ghost predicate LastOwner(users: Config, t: string, i: int)
  {
    LastOwnerBefore(Items(users), t, i, |users.names|)
  }

  /** The dict comprehension `{v["token"]: k for k, v in users.items()}` run
      over the first `n` items: every token seen maps to a user holding it,
      and a later user with the same token overwrites an earlier one. */
  function Invert(items: seq<(string, string)>, n: nat): (table: map<string, string>)
    requires n <= |items|
    ensures forall t :: t in table <==> OwnedBefore(items, t, n)
    ensures forall t :: t in table ==>
      exists i :: LastOwnerBefore(items, t, i, n) && table[t] == items[i].0
  {
    if n == 0 then map[]
    else
      var earlier := Invert(items, n - 1);
      var last := items[n - 1].1;
      var table := earlier[last := items[n - 1].0];
      assert forall t :: t in table <==> OwnedBefore(items, t, n) by {
        forall t ensures t in table <==> OwnedBefore(items, t, n) {
          if t != last && OwnedBefore(items, t, n) {
            var i :| 0 <= i < n && i < |items| && items[i].1 == t;
            assert i < n - 1;
          }
        }
      }
      assert LastOwnerBefore(items, last, n - 1, n) && table[last] == items[n - 1].0;
      assert forall t :: t in table ==>
        exists i :: LastOwnerBefore(items, t, i, n) && table[t] == items[i].0
      by {
        forall t | t in table
          ensures exists i :: LastOwnerBefore(items, t, i, n) && table[t] == items[i].0
        {
          if t != last {
            var i :| LastOwnerBefore(items, t, i, n - 1) && earlier[t] == items[i].0;
            assert LastOwnerBefore(items, t, i, n);
          }
        }
      }
      table
  }

  /** `TOKENS`: every configured token mapped to its (last) owner. */
  function Tokens(users: Config): map<string, string>
  {
    var items := Items(users);
    Invert(items, |items|)
  }

  /** `verify_token`: a user name whose configured token is `t`, or `None`
      when no configured user has that token. */
  function VerifyToken(users: Config, t: string): (r: Option<string>)
    ensures r.None? <==> forall n :: n in users.entries ==> users.entries[n].token != t
    ensures r.Some? ==> r.value in users.entries && users.entries[r.value].token == t
  {
    var items := Items(users);
    var table := Tokens(users);
    if t in table then
      assert table[t] in users.entries && users.entries[table[t]].token == t by {
        var i :| LastOwnerBefore(items, t, i, |items|) && table[t] == items[i].0;
        assert items[i] == (users.names[i], users.entries[users.names[i]].token);
      }
      Some(table[t])
    else
      assert forall n :: n in users.entries ==> users.entries[n].token != t by {
        forall n | n in users.entries ensures users.entries[n].token != t {
          var i :| 0 <= i < |users.names| && users.names[i] == n;
          assert items[i].1 == users.entries[n].token;
        }
      }
      None
  }

  /** When several users share a token, the one listed last wins. */
  lemma VerifyTokenLastWins(users: Config, t: string, i: int)
    requires LastOwner(users, t, i)
    ensures VerifyToken(users, t) == Some(users.names[i])
  {
    var items := Items(users);
    var table := Tokens(users);
    assert OwnedBefore(items, t, |items|);
    var k :| LastOwnerBefore(items, t, k, |items|) && table[t] == items[k].0;
    assert k == i;
  }

  /** `get_permissions`: the permission level configured for the owner of
      `t`, provided that owner's name is truthy (non-empty); otherwise
      `None`. */
  function GetPermissions(users: Config, t: string): (r: Option<string>)
    ensures r.Some? <==> VerifyToken(users, t).Some? && VerifyToken(users, t).value != ""
    ensures r.Some? ==> r.value == users.entries[VerifyToken(users, t).value].permissions
  {
    var username := VerifyToken(users, t);
    if username.Some? && username.value != "" then
      Some(users.entries[username.value].permissions)
    else
      None
  }

  /** The permission looked up for a token is the one configured for the
      user listed last with that token, when that user's name is non-empty. */
  lemma PermissionsOfOwner(users: Config, t: string, i: int)
    requires LastOwner(users, t, i)
    ensures GetPermissions(users, t) ==
      if users.names[i] == "" then None
      else Some(users.entries[users.names[i]].permissions)
  {
    VerifyTokenLastWins(users, t, i);
  }

  /** A token nobody is configured with has neither owner nor permission. */
  lemma UnknownToken(users: Config, t: string)
    requires forall i :: 0 <= i < |users.names| ==> users.entries[users.names[i]].token != t
    ensures VerifyToken(users, t) == None && GetPermissions(users, t) == None
  {
    forall n | n in users.entries ensures users.entries[n].token != t {
      var i :| 0 <= i < |users.names| && users.names[i] == n;
    }
  }
}
