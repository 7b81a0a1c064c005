/** `get_users_by_id`: the `list_users` reply re-keyed by each user's `uid`,
    with the display-only fields stripped from the stored record. */
module Users {
  import opened Values
  import opened Outcomes

  type Record = map<string, Value>

  /** Users by `uid`, keyed by the `uid` value exactly as the reply gives it. */
  type Directory = map<Value, Record>

  /** Fields `get_users_by_id` removes from every user record. */
  const StrippedFields: set<string> :=
    {"uid", "permissions", "htmleditormode", "templateeditormode", "questionselectormode"}

  /** A user record the loop body accepts: a dict with `permissions` (which
      `del` requires) and a hashable `uid` (which `pop` and the dict key
      require). The three editor-mode keys are popped with a default and may
      be missing. */
  predicate WellFormedUser(user: Value)
  {
    user.VMap? && "permissions" in user.fields && "uid" in user.fields && Hashable(user.fields["uid"])
  }

  function Uid(user: Value): Value
    requires WellFormedUser(user)
  {
    user.fields["uid"]
  }

  /** The record with the stripped fields gone and every other field as it was. */
  function Sanitized(user: Value): (r: Record)
    requires WellFormedUser(user)
    ensures forall k :: k in r <==> k in user.fields && k !in StrippedFields
    ensures forall k :: k in r ==> r[k] == user.fields[k]
  {
    user.fields - StrippedFields
  }

  /** One pass of the loop body: `del user['permissions']`, then
      `user.pop('uid')`, then the defaulted pops, then the dict store. The
      first step that fails decides the exception. */
  function Entry(user: Value): (r: Outcome<(Value, Record)>)
    ensures WellFormedUser(user) ==> r == Returned((Uid(user), Sanitized(user)))
    ensures !user.VMap? ==> r == Raised(TypeError)
    ensures user.VMap? && "permissions" !in user.fields ==> r == Raised(KeyError(VStr("permissions")))
    ensures user.VMap? && "permissions" in user.fields && "uid" !in user.fields ==> r == Raised(KeyError(VStr("uid")))
    ensures (user.VMap? && "permissions" in user.fields && "uid" in user.fields && !Hashable(user.fields["uid"]))
              ==> r == Raised(TypeError)
    ensures r.Returned? <==> WellFormedUser(user)
  {
    match user
    case VMap(fields) =>
      if "permissions" !in fields then Raised(KeyError(VStr("permissions")))
      else if "uid" !in fields then Raised(KeyError(VStr("uid")))
      else if !Hashable(fields["uid"]) then Raised(TypeError)
      else Returned((fields["uid"], fields - StrippedFields))
    case _ => Raised(TypeError)
  }

  /** The `for user in user_list` loop over a list reply, processing users in
      order; a later user with the same `uid` overwrites an earlier one. */
  function Build(users: seq<Value>): Outcome<Directory>
    decreases |users|
  {
    if |users| == 0 then Returned(map[])
    else match Build(users[..|users| - 1])
      case Raised(f) => Raised(f)
      case Returned(directory) =>
        match Entry(users[|users| - 1])
        case Raised(f) => Raised(f)
        case Returned((uid, record)) => Returned(directory[uid := record])
  }

  /** `get_users_by_id` on the `list_users` reply. Iterating a list visits
      its records; iterating an empty string or empty dict visits nothing;
      iterating a nonempty string or dict yields strings, which the `del`
      rejects; any other reply is not iterable. */
  function GetUsersById(reply: Value): (r: Outcome<Directory>)
    ensures reply.VList? ==> r == Build(reply.items)
    ensures reply.VMap? ==> (if |reply.fields| == 0 then r == Returned(map[]) else r == Raised(TypeError))
    ensures reply.VStr? ==> (if |reply.s| == 0 then r == Returned(map[]) else r == Raised(TypeError))
    ensures reply.VBool? || reply.VInt? || reply.VNull? ==> r == Raised(TypeError)
  {
    match reply
    case VList(users) => Build(users)
    case VMap(fields) => if |fields| == 0 then Returned(map[]) else Raised(TypeError)
    case VStr(s) => if |s| == 0 then Returned(map[]) else Raised(TypeError)
    case _ => Raised(TypeError)
  }

  /** Building succeeds exactly when every user record is well formed. */
  lemma {:induction false} BuildReturnedIff(users: seq<Value>)
    ensures Build(users).Returned? <==> forall i :: 0 <= i < |users| ==> WellFormedUser(users[i])
    decreases |users|
  {
    if |users| > 0 {
      var init := users[..|users| - 1];
      BuildReturnedIff(init);
      assert forall i :: 0 <= i < |init| ==> init[i] == users[i];
    }
  }

  /** How a failed build failed: already on the earlier users, or on the last. */
  lemma BuildRaisedStep(users: seq<Value>)
    requires |users| > 0 && Build(users).Raised?
    ensures var init := users[..|users| - 1];
            || (Build(init).Raised? && Build(users) == Build(init))
            || (Build(init).Returned? && Entry(users[|users| - 1]) == Raised(Build(users).failure))
  {
  }

  /** A failed build raises the exception of the first malformed record;
      every record before it was accepted. */
  lemma {:induction false} BuildRaisedFirst(users: seq<Value>)
    requires Build(users).Raised?
    ensures exists i :: 0 <= i < |users| && Entry(users[i]) == Raised(Build(users).failure)
                        && forall j :: 0 <= j < i ==> WellFormedUser(users[j])
    decreases |users|
  {
    var init := users[..|users| - 1];
    var last := |users| - 1;
    BuildRaisedStep(users);
    if Build(init).Raised? {
      BuildRaisedFirst(init);
      var i :| 0 <= i < |init| && Entry(init[i]) == Raised(Build(init).failure)
                && forall j :: 0 <= j < i ==> WellFormedUser(init[j]);
      assert users[i] == init[i];
      assert forall j :: 0 <= j < i ==> users[j] == init[j];
    } else {
      BuildReturnedIff(init);
      assert forall j :: 0 <= j < last ==> users[j] == init[j];
    }
  }

  /** The last user is filed on top of the directory built from the others. */
  lemma BuildStep(users: seq<Value>, directory: Directory)
    requires |users| > 0 && Build(users) == Returned(directory)
    ensures Build(users[..|users| - 1]).Returned?
    ensures WellFormedUser(users[|users| - 1])
    ensures directory == Build(users[..|users| - 1]).value[Uid(users[|users| - 1]) := Sanitized(users[|users| - 1])]
  {
    var last := users[|users| - 1];
    var d0 := Build(users[..|users| - 1]).value;
    var e := Entry(last).value;
    assert e == (Uid(last), Sanitized(last));
    assert directory == d0[e.0 := e.1];
  }

  /** The user with the highest position among those carrying uid `k`. */
  ghost predicate LastHolder(users: seq<Value>, i: int, k: Value)
  {
    && 0 <= i < |users|
    && WellFormedUser(users[i])
    && Uid(users[i]) == k
    && forall j :: i < j < |users| && WellFormedUser(users[j]) ==> Uid(users[j]) != k
  }

  /** Every user's uid is a key of the directory. */
  lemma {:induction false} BuildKeys(users: seq<Value>, directory: Directory)
    requires Build(users) == Returned(directory)
    ensures forall i :: 0 <= i < |users| ==> WellFormedUser(users[i]) && Uid(users[i]) in directory
    decreases |users|
  {
    BuildReturnedIff(users);
    if |users| > 0 {
      var init := users[..|users| - 1];
      BuildStep(users, directory);
      BuildKeys(init, Build(init).value);
      forall i | 0 <= i < |users| - 1 ensures Uid(users[i]) in directory {
        assert users[i] == init[i];
      }
    }
  }

  /** The last holder of `k` among the earlier users stays the last holder
      when a user with another uid follows. */
  lemma LastHolderExtend(users: seq<Value>, i: int, k: Value)
    requires |users| > 0 && WellFormedUser(users[|users| - 1]) && Uid(users[|users| - 1]) != k
    requires LastHolder(users[..|users| - 1], i, k)
    ensures LastHolder(users, i, k)
  {
    var init := users[..|users| - 1];
    assert users[i] == init[i];
    forall j | i < j < |users| && WellFormedUser(users[j]) ensures Uid(users[j]) != k {
      if j < |users| - 1 {
        assert users[j] == init[j];
      }
    }
  }

  /** Each key of the directory is the uid of some user, and maps to the
      sanitized record of the LAST user carrying that uid. */
  lemma {:induction false} BuildLastWins(users: seq<Value>, directory: Directory)
    requires Build(users) == Returned(directory)
    ensures forall k :: k in directory ==>
              exists i :: LastHolder(users, i, k) && directory[k] == Sanitized(users[i])
    decreases |users|
  {
    if |users| > 0 {
      var init := users[..|users| - 1];
      var last := |users| - 1;
      BuildStep(users, directory);
      var d0 := Build(init).value;
      BuildLastWins(init, d0);
      forall k | k in directory
        ensures exists i :: LastHolder(users, i, k) && directory[k] == Sanitized(users[i])
      {
        if k == Uid(users[last]) {
          assert LastHolder(users, last, k);
        } else {
          var i :| LastHolder(init, i, k) && d0[k] == Sanitized(init[i]);
          LastHolderExtend(users, i, k);
          assert users[i] == init[i];
        }
      }
    }
  }

  /** Stored records never carry a stripped field. */
  lemma BuildStripsDisplayFields(users: seq<Value>, directory: Directory)
    requires Build(users) == Returned(directory)
    ensures forall k, f :: k in directory && f in StrippedFields ==> f !in directory[k]
  {
    BuildLastWins(users, directory);
  }

  /** A user record with uid "3", a permissions entry, an editor mode and a
      full name is filed under "3" with only its full name left. */
  lemma SanitizeExample()
    ensures GetUsersById(VList([VMap(map[
              "uid" := VStr("3"),
              "permissions" := VMap(map[]),
              "htmleditormode" := VStr("x"),
              "full_name" := VStr("Ann")])]))
            == Returned(map[VStr("3") := map["full_name" := VStr("Ann")]])
  {
    var user := VMap(map[
      "uid" := VStr("3"),
      "permissions" := VMap(map[]),
      "htmleditormode" := VStr("x"),
      "full_name" := VStr("Ann")]);
    assert [user][..0] == [];
    assert Sanitized(user) == map["full_name" := VStr("Ann")];
  }
}
