/** Config.java: the game's settings as string properties. Loading fills
    in a default for each of eleven known keys that the file lacks (and
    reports whether the file needs rewriting); key bindings are resolved
    from names, single characters or numeric codes; the player texture
    path falls back to an older key. Reading and writing the file, and
    loading the image, are not modelled: the loaded properties are a
    parameter. */
module Config {
  import opened JavaLang
  import opened JavaNumbers

  type Props = map<string, string>

  /** addDefault: set `key` to `def` only when it is absent, and report
      whether it was. An existing value is never overwritten. */
  function AddDefault(p: Props, key: string, def: string): (r: (Props, bool))
    ensures r.1 <==> key !in p
    ensures r.0.Keys == p.Keys + {key}
    ensures forall k :: k in p ==> r.0[k] == p[k]
    ensures key !in p ==> r.0[key] == def
  {
    if key !in p then (p[key := def], true) else (p, false)
  }

  /** The keys of a list of defaults. */
  function KeysOf(ds: seq<(string, string)>): (ks: set<string>)
  {
    set i | 0 <= i < |ds| :: ds[i].0
  }

  /** The sequence of `changed |= addDefault(..)` statements: every default
      is applied, and the flag says whether any was added. */
  function AddDefaults(p: Props, ds: seq<(string, string)>): (r: (Props, bool))
    ensures r.0.Keys == p.Keys + KeysOf(ds)
    ensures forall k :: k in p ==> r.0[k] == p[k]
    ensures r.1 <==> !(KeysOf(ds) <= p.Keys)
    decreases |ds|
  {
    if ds == [] then (p, false)
    else
      var first := AddDefault(p, ds[0].0, ds[0].1);
      var rest := AddDefaults(first.0, ds[1..]);
      assert KeysOf(ds) == {ds[0].0} + KeysOf(ds[1..]) by {
        assert forall i :: 1 <= i < |ds| ==> ds[i] == ds[1..][i - 1];
      }
      (rest.0, first.1 || rest.1)
  }

  /** A missing key receives the value of its first default. */
  lemma {:induction false} AddDefaultsValue(p: Props, ds: seq<(string, string)>, i: nat)
    requires i < |ds| && ds[i].0 !in p
    requires forall j :: 0 <= j < i ==> ds[j].0 != ds[i].0
    ensures AddDefaults(p, ds).0[ds[i].0] == ds[i].1
    decreases i
  {
    var first := AddDefault(p, ds[0].0, ds[0].1);
    if i > 0 {
      assert ds[1..][i - 1] == ds[i];
      AddDefaultsValue(first.0, ds[1..], i - 1);
    }
  }

  /** The eleven defaults of loadProperties, in the order they are added. */
  const Defaults: seq<(string, string)> := [
    ("playerSpeed", "5"), ("bulletSpeed", "4"), ("screenWidth", "800"), ("screenHeight", "600"),
    ("hitboxRadius", "10"), ("slowSpeed", "2"), ("keyLeft", "A"), ("keyRight", "D"),
    ("keyUp", "W"), ("keyDown", "S"), ("playerTexture", "")]

  /** The key names are told apart by their length, first or fourth letter. */
  predicate Apart(a: string, b: string) {
    |a| != |b| || (|a| > 0 && a[0] != b[0]) || (|a| > 3 && a[3] != b[3])
  }

  lemma DefaultKeysDistinct(i: nat)
    requires i < |Defaults|
    ensures forall j :: 0 <= j < i ==> Defaults[j].0 != Defaults[i].0
  {
    forall j | 0 <= j < i
      ensures Defaults[j].0 != Defaults[i].0
    {
      assert Apart(Defaults[j].0, Defaults[i].0);
    }
  }

  /** loadProperties after reading the file into `loaded`: the properties
      and whether the file is to be rewritten, which is when some default
      key was missing. */
  function LoadProperties(loaded: Props): (r: (Props, bool))
    ensures r.0.Keys == loaded.Keys + KeysOf(Defaults)
    ensures forall k :: k in loaded ==> r.0[k] == loaded[k]
    ensures r.1 <==> !(KeysOf(Defaults) <= loaded.Keys)
  {
    AddDefaults(loaded, Defaults)
  }

  /** Every key the file lacks gets its default value. */
  lemma LoadFillsDefaults(loaded: Props, i: nat)
    requires i < |Defaults| && Defaults[i].0 !in loaded
    ensures LoadProperties(loaded).0[Defaults[i].0] == Defaults[i].1
  {
    DefaultKeysDistinct(i);
    AddDefaultsValue(loaded, Defaults, i);
  }

  /** Loading is idempotent: a file written by a previous run has every key,
      is read back unchanged, and is not rewritten. */
  lemma LoadTwice(loaded: Props)
    ensures var once := LoadProperties(loaded).0;
            LoadProperties(once) == (once, false)
  {
    var once := LoadProperties(loaded).0;
    var twice := LoadProperties(once).0;
    assert twice.Keys == once.Keys;
    assert forall k :: k in once ==> twice[k] == once[k];
  }

  const VkLeft: int := 37
  const VkUp: int := 38
  const VkRight: int := 39
  const VkDown: int := 40
  const VkShift: int := 16

  /** `getProperty(key, "")`. */
  function Get(p: Props, key: string): string {
    if key in p then p[key] else ""
  }

  /** The five key names getKeyCode recognises, upper-cased. */
  function KeyName(k: string): (r: Option<int>)
    ensures r.Some? ==> |k| >= 2 && k[0] in {'L', 'R', 'U', 'D', 'S'}
  {
    if k == "LEFT" then Some(VkLeft)
    else if k == "RIGHT" then Some(VkRight)
    else if k == "UP" then Some(VkUp)
    else if k == "DOWN" then Some(VkDown)
    else if k == "SHIFT" then Some(VkShift)
    else None
  }

  /** getKeyCode on the trimmed, upper-cased property value `k`: a key name
      gives its virtual-key code; a single character gives that character's
      key code (`charCode`, which stands for
      KeyEvent.getExtendedKeyCodeForChar); otherwise a number is taken as
      the code itself and anything else as the code of its first character.
      A blank value reaches `charAt(0)` on the empty string. */
  function Resolve(k: string, charCode: char -> int): (r: Result<int>)
    ensures r.Thrown? <==> k == []
    ensures r.Thrown? ==> r.error == StringIndexOutOfBounds
    ensures KeyName(k).Some? ==> r == Ok(KeyName(k).value)
    ensures |k| == 1 ==> r == Ok(charCode(k[0]))
    ensures KeyName(k).None? && |k| >= 2 && ParseInt(k).Ok? ==> r == ParseInt(k)
    ensures KeyName(k).None? && |k| >= 2 && ParseInt(k).Thrown? ==> r == Ok(charCode(k[0]))
  {
    if KeyName(k).Some? then Ok(KeyName(k).value)
    else if |k| == 1 then Ok(charCode(k[0]))
    else match ParseInt(k)
      case Ok(n) => Ok(n)
      case Thrown(_) => if |k| == 0 then Thrown(StringIndexOutOfBounds) else Ok(charCode(k[0]))
  }

  /** getKeyCode: resolve the trimmed, upper-cased value of `keyProp`; it
      throws exactly when that value is missing or blank. */
  function GetKeyCode(p: Props, keyProp: string, charCode: char -> int): (r: Result<int>)
    ensures r.Thrown? <==> Trim(Get(p, keyProp)) == []
    ensures r.Thrown? ==> r.error == StringIndexOutOfBounds
    ensures |Trim(Get(p, keyProp))| == 1 ==> r == Ok(charCode(UpperChar(Trim(Get(p, keyProp))[0])))
  {
    Resolve(ToUpperCase(Trim(Get(p, keyProp))), charCode)
  }

  /** A key binding fails exactly when the property is missing or consists
      only of spaces and control characters. */
  lemma BlankKeyThrows(p: Props, keyProp: string, charCode: char -> int)
    ensures GetKeyCode(p, keyProp, charCode).Thrown? <==>
              forall i :: 0 <= i < |Get(p, keyProp)| ==> Trimmable(Get(p, keyProp)[i])
  {
    TrimEmpty(Get(p, keyProp));
  }

  /** Upper-casing leaves a string without lower-case letters unchanged. */
  lemma UpperUnchanged(s: string)
    requires forall i :: 0 <= i < |s| ==> !('a' <= s[i] <= 'z')
    ensures ToUpperCase(s) == s
  {
  }

  /** A key name in any mix of cases resolves to its code. */
  lemma NameKey(v: string, name: string, cc: char -> int)
    requires forall i :: 0 <= i < |v| ==> !Trimmable(v[i])
    requires name in {"LEFT", "RIGHT", "UP", "DOWN", "SHIFT"} && ToUpperCase(v) == name
    ensures Resolve(ToUpperCase(Trim(v)), cc) == Ok(KeyName(name).value)
  {
    var t := Trim(v);
    assert t == v by {
      TrimNothing(v);
    }
    assert KeyName(name).Some?;
  }

  /** Key names are recognised whatever their case: `left`, `Left` and
      `LEFT` all bind the left arrow. */
  lemma KeyNamesIgnoreCase(p: Props, key: string, name: string, cc: char -> int)
    requires forall i :: 0 <= i < |Get(p, key)| ==> !Trimmable(Get(p, key)[i])
    requires name in {"LEFT", "RIGHT", "UP", "DOWN", "SHIFT"} && ToUpperCase(Get(p, key)) == name
    ensures GetKeyCode(p, key, cc) == Ok(KeyName(name).value)
  {
    NameKey(Get(p, key), name, cc);
  }

  /** The decimal form of a number with at least two characters: an
      optional minus followed by digits. */
  lemma ShowShape(n: int)
    requires n <= -1 || 10 <= n
    ensures |Show(n)| >= 2
    ensures Show(n)[0] == '-' || IsDigit(Show(n)[0])
    ensures forall i :: 0 <= i < |Show(n)| ==> Show(n)[i] == '-' || IsDigit(Show(n)[i])
  {
    if n >= 10 {
      assert Decimal(n) == Decimal(n / 10) + [('0' as int + n % 10) as char];
    } else {
      assert Show(n) == "-" + Decimal(-n);
    }
  }

  /** toString output has nothing to trim and nothing to upper-case. */
  lemma ShowNormal(n: int)
    ensures ToUpperCase(Trim(Show(n))) == Show(n)
  {
    var s := Show(n);
    assert forall i :: 0 <= i < |s| ==> s[i] == '-' || IsDigit(s[i]) by {
      if n < 0 {
        assert s == "-" + Decimal(-n);
      }
    }
    TrimNothing(s);
    UpperUnchanged(s);
  }

  lemma ResolveNumber(n: int, cc: char -> int)
    requires INT_MIN <= n <= -1 || 10 <= n <= INT_MAX
    ensures Resolve(Show(n), cc) == Ok(n)
  {
    ShowShape(n);
    assert KeyName(Show(n)) == None;
    ParseShow(n, INT_MIN, INT_MAX);
  }

  /** A number of two or more characters is taken as the key code itself. */
  lemma NumericKey(n: int, cc: char -> int)
    requires INT_MIN <= n <= -1 || 10 <= n <= INT_MAX
    ensures Resolve(ToUpperCase(Trim(Show(n))), cc) == Ok(n)
  {
    ShowNormal(n);
    ResolveNumber(n, cc);
  }

  lemma NumericKeyCode(key: string, n: int, cc: char -> int)
    requires INT_MIN <= n <= -1 || 10 <= n <= INT_MAX
    ensures GetKeyCode(map[key := Show(n)], key, cc) == Ok(n)
  {
    NumericKey(n, cc);
  }

  /** A single upper-case letter binds the key of that letter. */
  lemma LetterKey(v: string, cc: char -> int)
    requires |v| == 1 && 'A' <= v[0] <= 'Z'
    ensures Resolve(ToUpperCase(Trim(v)), cc) == Ok(cc(v[0]))
  {
    var t := Trim(v);
    assert t == v by {
      TrimNothing(v);
    }
    var u := ToUpperCase(v);
    assert u == v by {
      UpperUnchanged(v);
    }
    assert Resolve(u, cc) == Ok(cc(v[0]));
  }

  /** A property holding one upper-case letter binds that letter's key. */
  lemma LetterBinding(p: Props, key: string, cc: char -> int)
    requires |Get(p, key)| == 1 && 'A' <= Get(p, key)[0] <= 'Z'
    ensures GetKeyCode(p, key, cc) == Ok(cc(Get(p, key)[0]))
  {
    LetterKey(Get(p, key), cc);
  }

  /** Every default of a fresh configuration reads back as itself. */
  lemma FreshDefault(i: nat)
    requires i < |Defaults|
    ensures Get(LoadProperties(map[]).0, Defaults[i].0) == Defaults[i].1
  {
    LoadFillsDefaults(map[], i);
    assert Defaults[i].0 in LoadProperties(map[]).0;
  }

  /** With a fresh configuration the movement keys are A, D, W and S. */
  lemma DefaultMovementKey(i: nat, cc: char -> int)
    requires 6 <= i <= 9
    ensures |Defaults[i].1| == 1 && 'A' <= Defaults[i].1[0] <= 'Z'
    ensures GetKeyCode(LoadProperties(map[]).0, Defaults[i].0, cc) == Ok(cc(Defaults[i].1[0]))
  {
    assert |Defaults[i].1| == 1 && 'A' <= Defaults[i].1[0] <= 'Z';
    FreshDefault(i);
    LetterBinding(LoadProperties(map[]).0, Defaults[i].0, cc);
  }

  /** loadTexture's choice of path: the trimmed `playerTexture`, or, when
      that is empty and the old `hitboxTexture` key exists, the trimmed old
      key; no texture is loaded when the result is empty. */
  function TexturePath(p: Props): (r: Option<string>)
    ensures r.Some? ==> r.value != "" && (r.value == Trim(Get(p, "playerTexture")) || r.value == Trim(Get(p, "hitboxTexture")))
    ensures Trim(Get(p, "playerTexture")) != "" ==> r == Some(Trim(Get(p, "playerTexture")))
    ensures r.None? <==> Trim(Get(p, "playerTexture")) == "" && ("hitboxTexture" !in p || Trim(Get(p, "hitboxTexture")) == "")
  {
    var path := Trim(Get(p, "playerTexture"));
    var chosen := if path == "" && "hitboxTexture" in p then Trim(Get(p, "hitboxTexture")) else path;
    if chosen == "" then None else Some(chosen)
  }
}
