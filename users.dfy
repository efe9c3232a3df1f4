/** The -users flag (`name=id[,name=id]`) and the admin lookup of NewServer
    (serve.go:31-74). */
module Users {
  import opened Wrappers
  import opened GoStrings
  import opened Errors

  datatype User = User(name: string, id: int)

  /** One piece of the user list: it must split on '=' into exactly two parts,
      the second a base-10 int64. */
  function ParsePair(pair: string): Option<User>
  {
    var vs := Split(pair, '=');
    if |vs| != 2 then None
    else
      match ParseInt64(vs[1])
      case None => None
      case Some(id) => Some(User(vs[0], id))
  }

  /** The piece declares a user with this id. */
  predicate Declares(pair: string, id: int)
  {
    ParsePair(pair).Some? && ParsePair(pair).value.id == id
  }

  /** parseUsers' loop as a fold: register the pieces in order into m, each
      one overwriting the name stored for its id, and stop at the first
      malformed piece. */
  function Register(pieces: seq<string>, m: map<int, string>): Result<map<int, string>, Error>
    decreases |pieces|
  {
    if pieces == [] then Success(m)
    else
      match ParsePair(pieces[0])
      case None => Failure(InvalidUser(pieces[0]))
      case Some(u) => Register(pieces[1..], m[u.id := u.name])
  }

  /** What parseUsers returns for the flag value s. */
  function UserList(s: string): Result<map<int, string>, Error>
  {
    Register(Split(s, ','), map[])
  }

  /** parseUsers (serve.go:55-74). */
  method ParseUsers(users: string) returns (r: Result<map<int, string>, Error>)
    ensures r == UserList(users)
  {
    var m: map<int, string> := map[];
    var pairs := Split(users, ',');
    assert pairs[0..] == pairs;
    for k := 0 to |pairs|
      invariant Register(pairs[k..], m) == UserList(users)
    {
      var pair := pairs[k];
      assert pairs[k..][0] == pair && pairs[k..][1..] == pairs[k + 1..];
      var vs := Split(pair, '=');
      if |vs| != 2 {
        return Failure(InvalidUser(pair));
      }
      var id := ParseInt64(vs[1]);
      if id.None? {
        return Failure(InvalidUser(pair));
      }
      m := m[id.value := vs[0]];
    }
    return Success(m);
  }

  // ---------------------------------------------------------------------
  // What the user list means

  /** A piece parses exactly when it is `name=digits` with a name free of '='. */
  lemma ParsePairSound(pair: string)
    requires ParsePair(pair).Some?
    ensures var u := ParsePair(pair).value;
      '=' !in u.name && |u.name| < |pair| && pair[..|u.name|] == u.name && pair[|u.name|] == '='
      && ParseInt64(pair[|u.name| + 1..]) == Some(u.id)
  {
    var vs := Split(pair, '=');
    JoinSplit(pair, '=');
    assert Join(vs, '=') == vs[0] + ['='] + vs[1];
  }

  /** The user piece for (name, id). */
  function FormatUser(u: User): string
  {
    u.name + "=" + FormatInt(u.id)
  }

  lemma FormatIntChars(x: int, c: char)
    requires c != '-' && !IsDigit(c)
    ensures c !in FormatInt(x)
  {
    if x < 0 {
      assert FormatInt(x) == "-" + Digits(-x);
    }
  }

  /** Conversely to ParsePairSound, any piece `name=numeral` whose name has
      no '=' and whose numeral ParseInt accepts (`+5`, `007`, `-0` too)
      parses to that name and the numeral's value. */
  lemma ParsePairShape(name: string, rest: string)
    requires '=' !in name && ParseInt64(rest).Some?
    ensures ParsePair(name + "=" + rest) == Some(User(name, ParseInt64(rest).value))
  {
    ParseInt64Chars(rest);
    assert '=' !in rest;
    SplitJoin([name, rest], '=');
    assert Join([name, rest], '=') == name + "=" + rest;
  }

  /** Every well-formed user survives formatting as `name=id` and parsing back. */
  lemma ParsePairFormat(u: User)
    requires '=' !in u.name && MinInt64 <= u.id <= MaxInt64
    ensures ParsePair(FormatUser(u)) == Some(u)
  {
    FormatIntChars(u.id, '=');
    SplitJoin([u.name, FormatInt(u.id)], '=');
    assert Join([u.name, FormatInt(u.id)], '=') == FormatUser(u);
    ParseFormatInt(u.id);
  }

  /** The register succeeds exactly when every piece parses. */
  lemma {:induction false} RegisterSucceedsIff(pieces: seq<string>, m: map<int, string>)
    ensures Register(pieces, m).Success? <==> forall i :: 0 <= i < |pieces| ==> ParsePair(pieces[i]).Some?
    decreases |pieces|
  {
    if pieces != [] {
      if ParsePair(pieces[0]).Some? {
        RegisterSucceedsIff(pieces[1..], m[ParsePair(pieces[0]).value.id := ParsePair(pieces[0]).value.name]);
        assert forall i :: 1 <= i < |pieces| ==> pieces[i] == pieces[1..][i - 1];
      }
    }
  }

  /** On failure the error names the first malformed piece. */
  lemma {:induction false} RegisterFirstError(pieces: seq<string>, m: map<int, string>, k: nat)
    requires k < |pieces| && ParsePair(pieces[k]).None?
    requires forall i :: 0 <= i < k ==> ParsePair(pieces[i]).Some?
    ensures Register(pieces, m) == Failure(InvalidUser(pieces[k]))
    decreases k
  {
    if k > 0 {
      var u := ParsePair(pieces[0]).value;
      RegisterFirstError(pieces[1..], m[u.id := u.name], k - 1);
    }
  }

  /** The registered ids are those already in m and those some piece declares. */
  lemma {:induction false} RegisterKeys(pieces: seq<string>, m: map<int, string>, id: int)
    requires Register(pieces, m).Success?
    ensures id in Register(pieces, m).value <==>
              id in m || exists i :: 0 <= i < |pieces| && Declares(pieces[i], id)
    decreases |pieces|
  {
    if pieces != [] {
      var u := ParsePair(pieces[0]).value;
      RegisterKeys(pieces[1..], m[u.id := u.name], id);
      if exists i :: 0 <= i < |pieces| && Declares(pieces[i], id) {
        var i :| 0 <= i < |pieces| && Declares(pieces[i], id);
        if i > 0 { assert Declares(pieces[1..][i - 1], id); }
      }
      if exists i :: 0 <= i < |pieces[1..]| && Declares(pieces[1..][i], id) {
        var i :| 0 <= i < |pieces[1..]| && Declares(pieces[1..][i], id);
        assert Declares(pieces[i + 1], id);
      }
    }
  }

  /** An id no piece declares keeps the name it had in m. */
  lemma {:induction false} RegisterKeeps(pieces: seq<string>, m: map<int, string>, id: int)
    requires Register(pieces, m).Success? && id in m
    requires forall i :: 0 <= i < |pieces| ==> !Declares(pieces[i], id)
    ensures id in Register(pieces, m).value && Register(pieces, m).value[id] == m[id]
    decreases |pieces|
  {
    if pieces != [] {
      var u := ParsePair(pieces[0]).value;
      assert !Declares(pieces[0], id);
      assert forall i :: 0 <= i < |pieces[1..]| ==> pieces[1..][i] == pieces[i + 1];
      RegisterKeeps(pieces[1..], m[u.id := u.name], id);
    }
  }

  /** A later piece overwrites an earlier one with the same id: each id gets
      the name of the last piece that declares it. */
  lemma {:induction false} RegisterLastWins(pieces: seq<string>, m: map<int, string>, i: nat)
    requires Register(pieces, m).Success?
    requires i < |pieces| && ParsePair(pieces[i]).Some?
    requires forall j :: i < j < |pieces| ==> !Declares(pieces[j], ParsePair(pieces[i]).value.id)
    ensures var u := ParsePair(pieces[i]).value;
      u.id in Register(pieces, m).value && Register(pieces, m).value[u.id] == u.name
    decreases |pieces|
  {
    var u := ParsePair(pieces[0]).value;
    var m' := m[u.id := u.name];
    assert forall j :: 0 <= j < |pieces[1..]| ==> pieces[1..][j] == pieces[j + 1];
    if i == 0 {
      RegisterKeeps(pieces[1..], m', u.id);
    } else {
      RegisterLastWins(pieces[1..], m', i - 1);
    }
  }

  /** The empty flag value is rejected: it is one empty piece with no '='. */
  lemma UserListEmpty()
    ensures UserList("") == Failure(InvalidUser(""))
  {
    assert Split("", ',') == [""];
    assert Split("", '=') == [""];
  }

  /** The user list that formats the given users. */
  function FormatPieces(us: seq<User>): (pieces: seq<string>)
    ensures |pieces| == |us|
  {
    if us == [] then [] else [FormatUser(us[0])] + FormatPieces(us[1..])
  }

  function FormatUsers(us: seq<User>): string
    requires |us| >= 1
  {
    Join(FormatPieces(us), ',')
  }

  /** The table the users give when registered in order into m. */
  function Table(m: map<int, string>, us: seq<User>): map<int, string>
    decreases |us|
  {
    if us == [] then m else Table(m[us[0].id := us[0].name], us[1..])
  }

  predicate WellFormedUser(u: User)
  {
    ',' !in u.name && '=' !in u.name && MinInt64 <= u.id <= MaxInt64
  }

  lemma {:induction false} RegisterFormat(us: seq<User>, m: map<int, string>)
    requires forall i :: 0 <= i < |us| ==> WellFormedUser(us[i])
    ensures Register(FormatPieces(us), m) == Success(Table(m, us))
    decreases |us|
  {
    if us != [] {
      ParsePairFormat(us[0]);
      assert FormatPieces(us)[1..] == FormatPieces(us[1..]);
      RegisterFormat(us[1..], m[us[0].id := us[0].name]);
    }
  }

  lemma {:induction false} FormatPiecesNoComma(us: seq<User>)
    requires forall i :: 0 <= i < |us| ==> WellFormedUser(us[i])
    ensures forall i :: 0 <= i < |us| ==> ',' !in FormatPieces(us)[i]
    decreases |us|
  {
    if us != [] {
      FormatIntChars(us[0].id, ',');
      assert ',' !in FormatUser(us[0]);
      FormatPiecesNoComma(us[1..]);
      forall i | 1 <= i < |us| ensures ',' !in FormatPieces(us)[i] {
        assert FormatPieces(us)[i] == FormatPieces(us[1..])[i - 1];
      }
    }
  }

  /** A user list written as `name=id,...` parses back to the users' table. */
  lemma UserListRoundTrip(us: seq<User>)
    requires |us| >= 1
    requires forall i :: 0 <= i < |us| ==> WellFormedUser(us[i])
    ensures UserList(FormatUsers(us)) == Success(Table(map[], us))
  {
    FormatPiecesNoComma(us);
    SplitJoin(FormatPieces(us), ',');
    RegisterFormat(us, map[]);
  }

  // ---------------------------------------------------------------------
  // The admin

  /** The ids registered under the admin's name. */
  function AdminIds(users: map<int, string>, adminName: string): set<int>
  {
    set id | id in users && users[id] == adminName
  }

  /** The loop of NewServer (serve.go:43-47): over the users in Go's
      unspecified map order, keep the last id whose name is the admin's;
      0 when there is none. */
  method ResolveAdmin(users: map<int, string>, adminName: string) returns (admin: int)
    ensures admin == 0 || admin in AdminIds(users, adminName)
    ensures AdminIds(users, adminName) == {} ==> admin == 0
    ensures AdminIds(users, adminName) != {} ==> admin in AdminIds(users, adminName)
  {
    admin := 0;
    var remaining := users.Keys;
    // `for id, name := range s.users`, in an order Go leaves unspecified
    while exists id :: id in remaining
      invariant remaining <= users.Keys
      invariant admin in AdminIds(users, adminName)
                || (admin == 0 && AdminIds(users, adminName) <= remaining)
      decreases remaining
    {
      var uid :| uid in remaining;
      if adminName == users[uid] {
        admin := uid;
      }
      remaining := remaining - {uid};
    }
  }
}
