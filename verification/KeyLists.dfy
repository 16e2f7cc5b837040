/** The wrapped keys that come with a message: which of them each of the two paths to a
    member carries, the live packet and the stored row (`hub.go`). */
module KeyLists {
  import opened Common
  import opened MessageStore

  ghost predicate DistinctKeys(keys: seq<Key>) {
    forall i, j :: 0 <= i < j < |keys| ==> keys[i].user != keys[j].user
  }

  ghost predicate LastFor(keys: seq<Key>, i: int, user: User) {
    0 <= i < |keys| && keys[i].user == user && forall j :: i < j < |keys| ==> keys[j].user != user
  }

  ghost predicate FirstCompleteFor(keys: seq<Key>, i: int, user: User) {
    && 0 <= i < |keys| && keys[i].user == user && keys[i].Complete()
    && forall j :: 0 <= j < i ==> !(keys[j].user == user && keys[j].Complete())
  }

  lemma {:induction false} ListedIsLive(keys: seq<Key>, i: nat)
    requires i < |keys|
    ensures keys[i].user in LiveKeys(keys)
  {
    if i < |keys| - 1 {
      ListedIsLive(Init(keys), i);
    }
  }

  lemma {:induction false} LiveKeyAt(keys: seq<Key>, user: User) returns (i: nat)
    requires user in LiveKeys(keys)
    ensures LastFor(keys, i, user) && keys[i] == LiveKeys(keys)[user]
  {
    i := |keys| - 1;
    if keys[i].user != user {
      i := LiveKeyAt(Init(keys), user);
    }
  }

  /** The live packet carries the last key listed for a member. */
  lemma LiveKeyIsLast(keys: seq<Key>, user: User)
    ensures user in LiveKeys(keys) <==> exists i :: 0 <= i < |keys| && keys[i].user == user
    ensures user in LiveKeys(keys) ==> exists i :: LastFor(keys, i, user) && keys[i] == LiveKeys(keys)[user]
  {
    if user in LiveKeys(keys) {
      var i := LiveKeyAt(keys, user);
    }
    if i :| 0 <= i < |keys| && keys[i].user == user {
      ListedIsLive(keys, i);
    }
  }

  lemma {:induction false} CompleteIsStored(keys: seq<Key>, to: set<User>, i: nat)
    requires i < |keys| && keys[i].Complete() && keys[i].user in to
    ensures keys[i].user in KeyRows(keys, to)
  {
    if i < |keys| - 1 {
      CompleteIsStored(Init(keys), to, i);
    }
  }

  lemma {:induction false} StoredKeyAt(keys: seq<Key>, to: set<User>, user: User) returns (i: nat)
    requires user in KeyRows(keys, to)
    ensures FirstCompleteFor(keys, i, user) && keys[i] == KeyRows(keys, to)[user]
  {
    if user in KeyRows(Init(keys), to) {
      i := StoredKeyAt(Init(keys), to, user);
    } else {
      i := |keys| - 1;
      forall j | 0 <= j < i && keys[j].user == user && keys[j].Complete()
        ensures false
      {
        CompleteIsStored(Init(keys), to, j);
      }
    }
  }

  /** The stored row carries the first complete key listed for a member. */
  lemma StoredKeyIsFirst(keys: seq<Key>, to: set<User>, user: User)
    requires user in to
    ensures user in KeyRows(keys, to) <==> exists i :: 0 <= i < |keys| && keys[i].user == user && keys[i].Complete()
    ensures user in KeyRows(keys, to) ==> exists i :: FirstCompleteFor(keys, i, user) && keys[i] == KeyRows(keys, to)[user]
  {
    if user in KeyRows(keys, to) {
      var i := StoredKeyAt(keys, to, user);
    }
    if i :| 0 <= i < |keys| && keys[i].user == user && keys[i].Complete() {
      CompleteIsStored(keys, to, i);
    }
  }

  /** The first complete key listed for the member equals the last one listed. */
  ghost predicate FirstIsLast(keys: seq<Key>, user: User) {
    exists i, l :: FirstCompleteFor(keys, i, user) && LastFor(keys, l, user) && keys[i] == keys[l]
  }

  /** For every list: a member who is sent a key finds the same one in the stored row exactly
      when the first complete key listed for them equals the last one listed. */
  lemma PathsAgreeExactly(keys: seq<Key>, to: set<User>, user: User)
    requires user in to && user in LiveKeys(keys)
    ensures user in KeyRows(keys, to) && KeyRows(keys, to)[user] == LiveKeys(keys)[user] <==> FirstIsLast(keys, user)
  {
    var l := LiveKeyAt(keys, user);
    if user in KeyRows(keys, to) {
      var i := StoredKeyAt(keys, to, user);
    }
    if i, k :| FirstCompleteFor(keys, i, user) && LastFor(keys, k, user) && keys[i] == keys[k] {
      assert k == l;
      CompleteIsStored(keys, to, i);
      var first := StoredKeyAt(keys, to, user);
      assert first == i;
    }
  }

  /** When the list names nobody twice and every key is complete, both paths carry the same. */
  lemma PathsAgree(keys: seq<Key>, to: set<User>, i: nat)
    requires DistinctKeys(keys) && (forall k :: k in keys ==> k.Complete()) && i < |keys| && keys[i].user in to
    ensures keys[i].user in LiveKeys(keys) && LiveKeys(keys)[keys[i].user] == keys[i]
    ensures keys[i].user in KeyRows(keys, to) && KeyRows(keys, to)[keys[i].user] == keys[i]
  {
    LiveKeyIsLast(keys, keys[i].user);
    StoredKeyIsFirst(keys, to, keys[i].user);
    assert keys[i] in keys;
  }

  /** There are lists of complete keys, naming a member twice, for which they differ. */
  lemma DuplicateKeysDisagree()
    ensures exists keys: seq<Key>, user: User ::
      && (forall k :: k in keys ==> k.Complete())
      && user in LiveKeys(keys) && user in KeyRows(keys, {user}) && LiveKeys(keys)[user] != KeyRows(keys, {user})[user]
  {
    var a, b := Key("ann", "1", "1", "1"), Key("ann", "2", "2", "2");
    assert Init([a, b]) == [a] && Init([a]) == [];
    assert LiveKeys([a, b])["ann"] == b;
    assert KeyRows([a], {"ann"}) == map["ann" := a];
    assert KeyRows([a, b], {"ann"})["ann"] == a;
  }
}
