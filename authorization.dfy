/**
 * lookup_card and reject_card in access.py: the four lookup keys, tried in a
 * fixed order against the users table, and the zone authorization test.
 */
module Authorization {
  import opened Wrappers
  import opened Formats
  import opened Wiegand

  /** A user's JSON object: "name" and one status per zone. */
  type Record = map<string, string>

  /** users.json: lookup key to user record. */
  type Table = map<string, Record>

  const AuthorizedStatus := "authorized"

  /** users.get(key) */
  function Get(users: Table, key: string): Option<Record>
  {
    if key in users then Some(users[key]) else None
  }

  /** Python truthiness of a users.get result: None and {} are false. */
  predicate Truthy(r: Option<Record>)
  {
    r.Some? && r.value != map[]
  }

  /**
   * `users.get(k0) or users.get(k1) or ...`: the first truthy result, or,
   * when none is truthy, the result of the last get exactly as it is (which
   * may be an empty record rather than None).
   */
  function FirstTruthy(users: Table, keys: seq<string>): (r: Option<Record>)
    requires |keys| > 0
    ensures Truthy(r) || r == Get(users, keys[|keys| - 1])
  {
    if |keys| == 1 || Truthy(Get(users, keys[0])) then Get(users, keys[0])
    else FirstTruthy(users, keys[1..])
  }

  /**
   * The keys lookup_card tries, in order: "<facility>,<user>" in decimal, the
   * card id, the card id uppercased, and the user number in decimal.
   */
  function LookupKeys(c: Credential): (keys: seq<string>)
    ensures |keys| == 4 && keys[0] != keys[3] && keys[2] == Upper(keys[1])
  {
    PairKeyHasComma(c.facility, c.userId);
    DecimalHasNoComma(c.userId);
    [Decimal(c.facility) + "," + Decimal(c.userId), c.cardId, Upper(c.cardId), Decimal(c.userId)]
  }

  function Lookup(users: Table, c: Credential): Option<Record>
  {
    FirstTruthy(users, LookupKeys(c))
  }

  datatype Reason = UserNotFound | NotAuthorizedForZone

  /**
   * What lookup_card does with a credential. NameMissing: the record is
   * authorized but has no "name", so the report that precedes the unlock
   * raises KeyError and the door is never driven.
   */
  datatype Decision = Grant(name: string) | Deny(reason: Reason) | NameMissing

  /** `user.get(zone) and user[zone] == "authorized"` */
  predicate Authorizes(r: Record, zone: string)
  {
    zone in r && r[zone] == AuthorizedStatus
  }

  function Authorize(users: Table, zone: string, c: Credential): (d: Decision)
    ensures d == Deny(UserNotFound) <==> Lookup(users, c).None?
    ensures d.Grant? || d.NameMissing? ==> Lookup(users, c).Some? && Authorizes(Lookup(users, c).value, zone)
    ensures d.Grant? <==> Lookup(users, c).Some? && Authorizes(Lookup(users, c).value, zone) && "name" in Lookup(users, c).value
    ensures d.Grant? ==> d.name == Lookup(users, c).value["name"]
    ensures Lookup(users, c).Some? && Authorizes(Lookup(users, c).value, zone) && "name" !in Lookup(users, c).value ==> d == NameMissing
    ensures Lookup(users, c).Some? && !Authorizes(Lookup(users, c).value, zone) ==> d == Deny(NotAuthorizedForZone)
  {
    match Lookup(users, c)
    case None => Deny(UserNotFound)
    case Some(r) =>
      if !Authorizes(r, zone) then Deny(NotAuthorizedForZone)
      else if "name" in r then Grant(r["name"])
      else NameMissing
  }

  // ----- the or-chain -----

  /** The chain returns the entry of the first key whose record is non-empty, when an earlier one is not. */
  lemma {:induction false} FirstTruthyPicksFirstHit(users: Table, keys: seq<string>, i: nat)
    requires i < |keys|
    requires Truthy(Get(users, keys[i]))
    requires forall j | 0 <= j < i :: !Truthy(Get(users, keys[j]))
    ensures FirstTruthy(users, keys) == Some(users[keys[i]])
  {
    if i > 0 {
      assert !Truthy(Get(users, keys[0]));
      FirstTruthyPicksFirstHit(users, keys[1..], i - 1);
    }
  }

  /** The chain yields None exactly when no key before the last has a non-empty record and the last key is absent. */
  lemma {:induction false} FirstTruthyNone(users: Table, keys: seq<string>)
    requires |keys| > 0
    ensures FirstTruthy(users, keys) == None <==>
      (forall j | 0 <= j < |keys| - 1 :: !Truthy(Get(users, keys[j]))) && keys[|keys| - 1] !in users
  {
    if |keys| > 1 {
      FirstTruthyNone(users, keys[1..]);
      if !Truthy(Get(users, keys[0])) {
        assert forall j | 1 <= j < |keys| - 1 :: keys[j] == keys[1..][j - 1];
      }
    }
  }

  /** Whatever the chain yields is the entry of one of the keys tried. */
  lemma {:induction false} FirstTruthyFromKeys(users: Table, keys: seq<string>)
    requires |keys| > 0 && FirstTruthy(users, keys).Some?
    ensures exists k :: k in keys && k in users && users[k] == FirstTruthy(users, keys).value
  {
    if !(|keys| == 1 || Truthy(Get(users, keys[0]))) {
      FirstTruthyFromKeys(users, keys[1..]);
      var k :| k in keys[1..] && k in users && users[k] == FirstTruthy(users, keys[1..]).value;
      assert k in keys;
    } else {
      assert keys[0] in keys;
    }
  }

  // ----- the decision -----

  /**
   * The door opens only if some lookup key of the credential holds a named
   * record authorized for the zone, and then the grant carries that name.
   */
  lemma GrantNeedsAuthorizedRecord(users: Table, zone: string, c: Credential)
    requires Authorize(users, zone, c).Grant?
    ensures exists k :: && k in LookupKeys(c) && k in users && Authorizes(users[k], zone)
                        && "name" in users[k] && users[k]["name"] == Authorize(users, zone, c).name
  {
    FirstTruthyFromKeys(users, LookupKeys(c));
  }

  /** "couldn't find user" exactly when none of the first three keys holds a non-empty record and the user number is absent. */
  lemma UserNotFoundIff(users: Table, zone: string, c: Credential)
    ensures Authorize(users, zone, c) == Deny(UserNotFound) <==>
      (forall j | 0 <= j < 3 :: !Truthy(Get(users, LookupKeys(c)[j]))) && Decimal(c.userId) !in users
  {
    FirstTruthyNone(users, LookupKeys(c));
  }

  /**
   * A record under "<facility>,<user>" decides the request on its own: the
   * credential is granted exactly when that record is authorized for the zone
   * (and carries a name), and refused as not authorized otherwise.
   */
  lemma PairKeyDecides(users: Table, zone: string, c: Credential)
    requires var k := Decimal(c.facility) + "," + Decimal(c.userId); k in users && users[k] != map[]
    ensures var r := users[Decimal(c.facility) + "," + Decimal(c.userId)];
      Authorize(users, zone, c) ==
        if !Authorizes(r, zone) then Deny(NotAuthorizedForZone)
        else if "name" in r then Grant(r["name"]) else NameMissing
  {
    FirstTruthyPicksFirstHit(users, LookupKeys(c), 0);
  }

  /** An empty table refuses every credential as "couldn't find user". */
  lemma EmptyTableDenies(zone: string, c: Credential)
    ensures Authorize(map[], zone, c) == Deny(UserNotFound)
  {
    UserNotFoundIff(map[], zone, c);
  }

  /** str(n) holds no comma. */
  lemma DecimalHasNoComma(n: nat)
    ensures ',' !in Decimal(n)
  {
    DecimalRoundTrip(n);
  }

  /** The first lookup key always holds the comma that joins its two numbers. */
  lemma PairKeyHasComma(f: nat, u: nat)
    ensures ',' in Decimal(f) + "," + Decimal(u)
  {
    var k := Decimal(f) + "," + Decimal(u);
    assert k[|Decimal(f)|] == ',';
  }

  /** The position of the first comma in s, or |s| when there is none. */
  function CommaIndex(s: string): nat
  {
    if s == [] || s[0] == ',' then 0 else 1 + CommaIndex(s[1..])
  }

  lemma {:induction false} CommaIndexAfter(x: string, y: string)
    requires ',' !in x
    ensures CommaIndex(x + "," + y) == |x|
  {
    if x != [] {
      assert (x + "," + y)[1..] == x[1..] + "," + y;
      assert ',' !in x[1..] by {
        forall i | 0 <= i < |x[1..]| ensures x[1..][i] != ',' {
          assert x[1..][i] == x[i + 1];
        }
      }
      CommaIndexAfter(x[1..], y);
    }
  }

  /** A string joined at its only comma splits back into its two parts. */
  lemma CommaSplit(x: string, y: string, z: string, w: string)
    requires ',' !in x && ',' !in z && x + "," + y == z + "," + w
    ensures x == z && y == w
  {
    var k := x + "," + y;
    CommaIndexAfter(x, y);
    CommaIndexAfter(z, w);
    assert x == k[..|x|] == z;
    assert y == k[|x| + 1..] == w;
  }

  /** Two cards share the "<facility>,<user>" key only if they have the same facility and user. */
  lemma PairKeyInjective(f1: nat, u1: nat, f2: nat, u2: nat)
    requires Decimal(f1) + "," + Decimal(u1) == Decimal(f2) + "," + Decimal(u2)
    ensures f1 == f2 && u1 == u2
  {
    DecimalHasNoComma(f1);
    DecimalHasNoComma(f2);
    CommaSplit(Decimal(f1), Decimal(u1), Decimal(f2), Decimal(u2));
    DecimalInjective(f1, f2);
    DecimalInjective(u1, u2);
  }

  /**
   * For a decoded credential the four keys are pairwise different, except that
   * the lowercase and uppercase card ids coincide when the id has no letter:
   * only the first key has a comma, and the user number prints in at most 5
   * characters while the card ids have 8.
   */
  lemma LookupKeysDistinct(s: string)
    requires IsBits(s) && Validate(s).Success?
    ensures var k := LookupKeys(Validate(s).value);
      && k[0] != k[1] && k[0] != k[2] && k[0] != k[3]
      && k[1] != k[3] && k[2] != k[3]
      && (k[1] == k[2] <==> forall i | 0 <= i < |k[1]| :: IsDigit(k[1][i]))
  {
    var c := Validate(s).value;
    var k := LookupKeys(c);
    CardIdIsFrameValue(s);
    assert |k[1]| == 8 && |k[2]| == 8;
    assert ',' !in k[1] by {
      assert forall i | 0 <= i < 8 :: IsLowerHex(k[1][i]);
    }
    assert ',' !in k[2] by {
      assert forall i | 0 <= i < 8 :: k[2][i] == UpperChar(k[1][i]);
    }
    DecimalHasNoComma(c.userId);
    PairKeyHasComma(c.facility, c.userId);
    DecimalLength(c.userId, 5);
    HexCaseAgrees(k[1]);
  }

  /** Uppercasing a lowercase hex id changes it exactly when it has a letter digit. */
  lemma HexCaseAgrees(id: string)
    requires forall i | 0 <= i < |id| :: IsLowerHex(id[i])
    ensures id == Upper(id) <==> forall i | 0 <= i < |id| :: IsDigit(id[i])
  {
    if id == Upper(id) {
      forall i | 0 <= i < |id| ensures IsDigit(id[i]) {
        assert Upper(id)[i] == UpperChar(id[i]);
      }
    }
  }
}
