/**
 * The permission store: five permissions, each granted or not in a JSON
 * object on disk; the all-false defaults written when the file is missing
 * or empty; and the check that lists the required permissions the user has
 * not granted, in the message the assistant relays.
 */
module Permissions {
  import opened Wrappers
  import opened Json
  import opened Strings

  datatype Permission = Clipboard | Location | Microphone | Screenshot | Tts

  /** `Permission::as_str`: the variant's own name. */
  function AsStr(p: Permission): (r: string)
    ensures FromStr(r) == Some(p)
  {
    match p
    case Clipboard => "Clipboard"
    case Location => "Location"
    case Microphone => "Microphone"
    case Screenshot => "Screenshot"
    case Tts => "Tts"
  }

  /** The permission a stored key names, if any. */
  function FromStr(s: string): Option<Permission>
  {
    if s == "Clipboard" then Some(Clipboard)
    else if s == "Location" then Some(Location)
    else if s == "Microphone" then Some(Microphone)
    else if s == "Screenshot" then Some(Screenshot)
    else if s == "Tts" then Some(Tts)
    else None
  }

  /** A name parses back exactly when it is the name of that permission: the five names are distinct. */
  lemma NamesRoundTrip(p: Permission, s: string)
    ensures FromStr(s) == Some(p) <==> AsStr(p) == s
  {
  }

  /** Distinct permissions have distinct names. */
  lemma AsStrInjective(p: Permission, q: Permission)
    ensures AsStr(p) == AsStr(q) ==> p == q
  {
    NamesRoundTrip(p, AsStr(p));
    NamesRoundTrip(q, AsStr(q));
  }

  /** `Permission::iter()`: the variants in declaration order. */
  const AllPermissions: seq<Permission> := [Clipboard, Location, Microphone, Screenshot, Tts]

  /** The keys of a complete permissions object. */
  const PermissionNames: set<string> := {"Clipboard", "Location", "Microphone", "Screenshot", "Tts"}

  /** Every permission is listed once by `iter()`. */
  lemma AllPermissionsComplete(p: Permission)
    ensures p in AllPermissions && multiset(AllPermissions)[p] == 1
  {
  }

  /** The names are exactly the keys of a complete permissions object. */
  lemma PermissionNamesAreNames(s: string)
    ensures s in PermissionNames <==> FromStr(s).Some?
  {
  }

  /**
   * The loop of `create_permissions`: one `false` entry inserted per
   * permission. The result holds exactly the five names, all `false`.
   */
  method DefaultPermissionsMap() returns (m: map<string, Json>)
    ensures m.Keys == PermissionNames
    ensures forall k :: k in m ==> m[k] == Bool(false)
  {
    m := map[];
    for i := 0 to |AllPermissions|
      invariant m.Keys == set j | 0 <= j < i :: AsStr(AllPermissions[j])
      invariant forall k :: k in m ==> m[k] == Bool(false)
    {
      m := m[AsStr(AllPermissions[i]) := Bool(false)];
    }
    assert m.Keys == {AsStr(AllPermissions[0]), AsStr(AllPermissions[1]), AsStr(AllPermissions[2]),
                      AsStr(AllPermissions[3]), AsStr(AllPermissions[4])};
  }

  /** The all-false permissions object `create_permissions` writes. */
  const DefaultPermissions: Json :=
    Object(map["Clipboard" := Bool(false), "Location" := Bool(false), "Microphone" := Bool(false),
               "Screenshot" := Bool(false), "Tts" := Bool(false)])

  /** `create_permissions`: the file now holds every permission, denied. */
  method CreatePermissions(file: JsonFile)
    modifies file
    ensures file.contents == Some(DefaultPermissions)
  {
    var m := DefaultPermissionsMap();
    assert m == DefaultPermissions.fields;
    file.Write(Object(m));
  }

  /** `update_permissions`: the new object is written unless it is the empty object. */
  method UpdatePermissions(file: JsonFile, permissions: Json)
    modifies file
    ensures file.contents == if permissions == EmptyObject then old(file.contents) else Some(permissions)
  {
    file.WriteUnlessEmpty(permissions);
  }

  /**
   * `get_permissions`: a missing file or an empty object is replaced by the
   * defaults, which are then returned; any other value is returned as it is.
   */
  method GetPermissions(file: JsonFile) returns (r: Json)
    modifies file
    ensures r == Regenerated(old(file.contents), DefaultPermissions)
    ensures file.contents == Some(r)
  {
    assert "Tts" in DefaultPermissions.fields;
    r := file.ReadOrRegenerate(DefaultPermissions);
  }

  /**
   * `permissions.get(name).unwrap().as_bool().unwrap()`: the stored flag,
   * `None` where either `unwrap` panics (not an object, key absent, value
   * not a boolean).
   */
  function Lookup(permissions: Json, p: Permission): (r: Option<bool>)
    ensures r.Some? <==>
              permissions.Object? && AsStr(p) in permissions.fields && permissions.fields[AsStr(p)].Bool?
    ensures r.Some? ==> r.value == permissions.fields[AsStr(p)].b
  {
    match Get(permissions, AsStr(p))
    case None => None
    case Some(v) => AsBool(v)
  }

  /** The lookup of every permission in a stored object. */
  function Granted(permissions: Json): Permission -> Option<bool>
  {
    p => Lookup(permissions, p)
  }

  /** The denied permissions among `required`, in order and with repeats; `None` if some lookup panics. */
  function Denied(granted: Permission -> Option<bool>, required: seq<Permission>): (r: Option<seq<Permission>>)
    ensures r.Some? ==> |r.value| <= |required|
  {
    if required == [] then Some([])
    else
      var head := granted(required[0]);
      var rest := Denied(granted, required[1..]);
      if head.None? || rest.None? then None
      else Some((if head.value then [] else [required[0]]) + rest.value)
  }

  /** The check panics exactly when some required permission has no boolean entry. */
  lemma {:induction false} DeniedPanics(granted: Permission -> Option<bool>, required: seq<Permission>)
    ensures Denied(granted, required).None? <==>
              exists i :: 0 <= i < |required| && granted(required[i]).None?
  {
    if required != [] {
      DeniedPanics(granted, required[1..]);
      if exists i :: 0 <= i < |required[1..]| && granted(required[1..][i]).None? {
        var i :| 0 <= i < |required[1..]| && granted(required[1..][i]).None?;
        assert required[i + 1] == required[1..][i];
      }
      if exists i :: 0 <= i < |required| && granted(required[i]).None? {
        var i :| 0 <= i < |required| && granted(required[i]).None?;
        if i > 0 {
          assert required[1..][i - 1] == required[i];
        }
      }
    }
  }

  /** Nothing is denied exactly when every required permission is stored as `true`. */
  lemma {:induction false} NothingDenied(granted: Permission -> Option<bool>, required: seq<Permission>)
    ensures Denied(granted, required) == Some([]) <==>
              forall i :: 0 <= i < |required| ==> granted(required[i]) == Some(true)
  {
    if required != [] {
      var head := granted(required[0]);
      var rest := Denied(granted, required[1..]);
      NothingDenied(granted, required[1..]);
      assert Denied(granted, required) == Some([]) <==> head == Some(true) && rest == Some([]) by {
        if head.Some? && rest.Some? {
          var pre: seq<Permission> := if head.value then [] else [required[0]];
          assert |pre + rest.value| == |pre| + |rest.value|;
        }
      }
      assert (forall i :: 0 <= i < |required| ==> granted(required[i]) == Some(true)) <==>
             head == Some(true) && (forall i :: 0 <= i < |required[1..]| ==> granted(required[1..][i]) == Some(true)) by {
        forall i | 0 <= i < |required[1..]| ensures required[1..][i] == required[i + 1] { }
        forall i | 0 < i < |required| ensures required[i] == required[1..][i - 1] { }
      }
    }
  }

  /**
   * The denied list repeats each stored-`false` permission as often as
   * `required` does and holds nothing else.
   */
  lemma {:induction false} DeniedCounts(granted: Permission -> Option<bool>, required: seq<Permission>, p: Permission)
    requires Denied(granted, required).Some?
    ensures granted(p) == Some(false) ==>
              multiset(Denied(granted, required).value)[p] == multiset(required)[p]
    ensures granted(p) != Some(false) ==> multiset(Denied(granted, required).value)[p] == 0
  {
    if required != [] {
      DeniedCounts(granted, required[1..], p);
      assert required == [required[0]] + required[1..];
      assert multiset(required) == multiset([required[0]]) + multiset(required[1..]);
    }
  }

  /** `Denied` on a non-empty list, one step unfolded, when the whole list is checked without panic. */
  lemma DeniedStep(granted: Permission -> Option<bool>, x: Permission, rest: seq<Permission>)
    requires granted(x).Some? && Denied(granted, rest).Some?
    ensures Denied(granted, [x] + rest)
            == Some((if granted(x).value then [] else [x]) + Denied(granted, rest).value)
  {
    assert ([x] + rest)[0] == x && ([x] + rest)[1..] == rest;
  }

  /** The inductive step of `DeniedAppend`: one more permission in front of `rest`. */
  lemma DeniedAppendCons(granted: Permission -> Option<bool>, x: Permission, rest: seq<Permission>, b: seq<Permission>)
    requires granted(x).Some? && Denied(granted, rest).Some? && Denied(granted, b).Some?
    requires Denied(granted, rest + b) == Some(Denied(granted, rest).value + Denied(granted, b).value)
    ensures Denied(granted, [x] + (rest + b))
            == Some(Denied(granted, [x] + rest).value + Denied(granted, b).value)
  {
    var pre: seq<Permission> := if granted(x).value then [] else [x];
    var dr, db := Denied(granted, rest).value, Denied(granted, b).value;
    calc {
      Denied(granted, [x] + (rest + b));
      { DeniedStep(granted, x, rest + b); }
      Some(pre + (dr + db));
      { assert pre + (dr + db) == (pre + dr) + db; }
      Some((pre + dr) + db);
      { DeniedStep(granted, x, rest); }
      Some(Denied(granted, [x] + rest).value + db);
    }
  }

  /** Checking `a` then `b` denies what checking `a + b` denies, in the order of `required`. */
  lemma {:induction false} DeniedAppend(granted: Permission -> Option<bool>, a: seq<Permission>, b: seq<Permission>)
    requires Denied(granted, a).Some? && Denied(granted, b).Some?
    ensures Denied(granted, a + b) == Some(Denied(granted, a).value + Denied(granted, b).value)
  {
    if a == [] {
      assert a + b == b;
      assert [] + Denied(granted, b).value == Denied(granted, b).value;
    } else {
      assert a == [a[0]] + a[1..];
      assert a + b == [a[0]] + (a[1..] + b);
      DeniedAppend(granted, a[1..], b);
      DeniedAppendCons(granted, a[0], a[1..], b);
    }
  }

  /** One more permission checked at the end of the loop: its denial, if any, goes last. */
  lemma DeniedSnoc(granted: Permission -> Option<bool>, required: seq<Permission>, i: nat)
    requires i < |required| && granted(required[i]).Some? && Denied(granted, required[..i]).Some?
    ensures Denied(granted, required[..i + 1])
            == Some(Denied(granted, required[..i]).value + (if granted(required[i]).value then [] else [required[i]]))
  {
    var x := required[i];
    var step: seq<Permission> := if granted(x).value then [] else [x];
    DeniedStep(granted, x, []);
    assert [x] + [] == [x] && step + [] == step;
    DeniedAppend(granted, required[..i], [x]);
    assert required[..i + 1] == required[..i] + [x];
  }

  /** On freshly regenerated defaults every required permission is denied. */
  lemma {:induction false} DefaultsDenyAll(required: seq<Permission>)
    ensures Denied(Granted(DefaultPermissions), required) == Some(required)
  {
    if required != [] {
      assert Granted(DefaultPermissions)(required[0]) == Some(false);
      DefaultsDenyAll(required[1..]);
      assert [required[0]] + required[1..] == required;
    }
  }

  /**
   * The `for permission in required` loop of `check`: every required
   * permission is looked up in turn and pushed when it is not granted.
   */
  method CollectDenied(permissions: Json, required: seq<Permission>) returns (r: Option<seq<Permission>>)
    ensures r == Denied(Granted(permissions), required)
  {
    var denied: seq<Permission> := [];
    for i := 0 to |required|
      invariant Denied(Granted(permissions), required[..i]) == Some(denied)
    {
      var flag := Lookup(permissions, required[i]);
      if flag.None? {
        DeniedPanics(Granted(permissions), required);
        return None;
      }
      var step: seq<Permission> := if flag.value then [] else [required[i]];
      assert Granted(permissions)(required[i]) == flag;
      DeniedSnoc(Granted(permissions), required, i);
      denied := denied + step;
    }
    assert required[..|required|] == required;
    r := Some(denied);
  }

  /** The opening of the denial message. */
  const MessagePrefix: string :=
    "You MUST tell the user they need to allow access to ALL of the following features in settings: "

  /** The names of a list of permissions, in order. */
  function Names(ps: seq<Permission>): (r: seq<string>)
    ensures |r| == |ps| && forall i :: 0 <= i < |ps| ==> r[i] == AsStr(ps[i])
  {
    seq(|ps|, i requires 0 <= i < |ps| => AsStr(ps[i]))
  }

  /** No message for an empty denied list; otherwise the prefix and the denied names joined by ", ". */
  function DenialMessage(denied: seq<Permission>): (r: Option<string>)
    ensures r.None? <==> denied == []
  {
    if denied == [] then None else Some(MessagePrefix + Join(Names(denied), ", "))
  }

  /** The result of `check` on a permissions object: a panic, no message, or the denial message. */
  function CheckResult(permissions: Json, required: seq<Permission>): (r: Outcome<Option<string>>)
    ensures r.Panicked? <==> Denied(Granted(permissions), required).None?
  {
    match Denied(Granted(permissions), required)
    case None => Panicked("called `Option::unwrap()` on a `None` value")
    case Some(d) => Returned(DenialMessage(d))
  }

  /**
   * `check`: the stored permissions are read (regenerated if need be) and
   * the required ones that are not granted are reported.
   */
  method Check(file: JsonFile, required: seq<Permission>) returns (r: Outcome<Option<string>>)
    modifies file
    ensures file.contents == Some(Regenerated(old(file.contents), DefaultPermissions))
    ensures r == CheckResult(Regenerated(old(file.contents), DefaultPermissions), required)
  {
    var permissions := GetPermissions(file);
    var denied := CollectDenied(permissions, required);
    if denied.None? {
      return Panicked("called `Option::unwrap()` on a `None` value");
    }
    if denied.value == [] {
      return Returned(None);
    }
    var names := Names(denied.value);
    r := Returned(Some(MessagePrefix + Join(names, ", ")));
  }

  /** A piece with one leading space removed, if it has one. */
  function Unlead(piece: string): string
  {
    if piece != [] && piece[0] == ' ' then piece[1..] else piece
  }

  /** The list a reader of the message recovers: the text after the prefix, split at commas, leading spaces dropped. */
  function ParseDenialMessage(message: string): seq<string>
    requires |MessagePrefix| <= |message|
  {
    var pieces := Split(message[|MessagePrefix|..], ',');
    seq(|pieces|, i requires 0 <= i < |pieces| => Unlead(pieces[i]))
  }

  /** Permission names hold no comma and do not start with a space. */
  lemma NameShape(p: Permission)
    ensures AsStr(p) != [] && AsStr(p)[0] != ' ' && ',' !in AsStr(p)
  {
  }

  /** The comma-separated pieces of a denial message body: the names, all but the first led by a space. */
  lemma SplitDenialBody(denied: seq<Permission>)
    requires denied != []
    ensures Split(Join(Names(denied), ", "), ',') == Lead(Names(denied), " ")
  {
    var names := Names(denied);
    var lead := Lead(names, " ");
    JoinLead(names, ',', ' ');
    forall i | 0 <= i < |lead| ensures ',' !in lead[i] {
      NameShape(denied[i]);
      if i > 0 {
        assert lead[i] == " " + names[i];
      }
    }
    SplitJoin(lead, ',');
  }

  /** Dropping the leading space from every piece gives the names back. */
  lemma UnleadNames(denied: seq<Permission>, i: nat)
    requires i < |denied|
    ensures Unlead(Lead(Names(denied), " ")[i]) == AsStr(denied[i])
  {
    NameShape(denied[i]);
    var lead := Lead(Names(denied), " ");
    if i > 0 {
      assert lead[i] == " " + AsStr(denied[i]);
      assert lead[i][1..] == AsStr(denied[i]);
    }
  }

  /** The message names the denied permissions in order, and they can be read back from it. */
  lemma DenialMessageRoundTrip(denied: seq<Permission>)
    requires denied != []
    ensures var m := DenialMessage(denied).value;
            |MessagePrefix| <= |m| && m[..|MessagePrefix|] == MessagePrefix
            && ParseDenialMessage(m) == Names(denied)
  {
    var body := Join(Names(denied), ", ");
    var m := MessagePrefix + body;
    assert m[..|MessagePrefix|] == MessagePrefix && m[|MessagePrefix|..] == body;
    SplitDenialBody(denied);
    forall i | 0 <= i < |denied| ensures ParseDenialMessage(m)[i] == Names(denied)[i] {
      UnleadNames(denied, i);
    }
  }
}
