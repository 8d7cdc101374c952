/** The few java.lang behaviours the game's parsers and configuration rely
    on: the unchecked exceptions they can raise, and the String operations
    `trim`, `isBlank`, `toUpperCase`, `startsWith` and `split` with a
    one-character literal separator. */
module JavaLang {

  /** The unchecked exceptions the modelled code can raise. */
  datatype Exception =
    | NumberFormat            // Integer.parseInt, Long.parseLong, Double.parseDouble
    | ArrayIndexOutOfBounds   // indexing the String[] returned by split
    | StringIndexOutOfBounds  // charAt(0) on an empty string
    | IllegalArgument         // AlphaComposite.getInstance with an alpha outside [0, 1]

  /** Either a value or the exception that escaped. */
  datatype Result<+T> = Ok(value: T) | Thrown(error: Exception) {
    predicate IsFailure() {
      Thrown?
    }

    function PropagateFailure<U>(): Result<U>
      requires Thrown?
    {
      Thrown(error)
    }

    function Extract(): T
      requires Ok?
    {
      value
    }
  }

  datatype Option<+T> = None | Some(value: T)

  /** Array access `a[i]` on a Java array of strings. */
  function At(a: seq<string>, i: nat): (r: Result<string>)
    ensures r.Ok? <==> i < |a|
    ensures r.Ok? ==> r.value == a[i]
  {
    if i < |a| then Ok(a[i]) else Thrown(ArrayIndexOutOfBounds)
  }

  /** Character.isWhitespace: the Unicode space, line and paragraph separators
      other than the no-break spaces, and the ASCII controls 9-13 and 28-31. */
  predicate IsWhitespace(c: char) {
    var n := c as int;
    n == 0x20 || 0x09 <= n <= 0x0D || 0x1C <= n <= 0x1F
    || n == 0x1680 || 0x2000 <= n <= 0x2006 || 0x2008 <= n <= 0x200A
    || n == 0x2028 || n == 0x2029 || n == 0x205F || n == 0x3000
  }

  /** String.isBlank: empty or whitespace only. */
  predicate IsBlank(s: string) {
    forall i :: 0 <= i < |s| ==> IsWhitespace(s[i])
  }

  /** String.trim removes every character whose code is at most U+0020. */
  predicate Trimmable(c: char) {
    c <= ' '
  }

  function TrimStart(s: string): (r: string)
    ensures |r| <= |s| && r == s[|s| - |r|..]
    ensures r == [] || !Trimmable(r[0])
    ensures forall i :: 0 <= i < |s| - |r| ==> Trimmable(s[i])
  {
    if |s| > 0 && Trimmable(s[0]) then TrimStart(s[1..]) else s
  }

  function TrimEnd(s: string): (r: string)
    ensures |r| <= |s| && r == s[..|r|]
    ensures r == [] || !Trimmable(r[|r| - 1])
    ensures forall i :: |r| <= i < |s| ==> Trimmable(s[i])
  {
    if |s| > 0 && Trimmable(s[|s| - 1]) then TrimEnd(s[..|s| - 1]) else s
  }

  /** String.trim. */
  function Trim(s: string): (r: string)
    ensures |r| <= |s|
    ensures r == [] || (!Trimmable(r[0]) && !Trimmable(r[|r| - 1]))
  {
    TrimEnd(TrimStart(s))
  }

  /** A string trims to nothing exactly when every character is trimmable. */
  lemma {:induction false} TrimEmpty(s: string)
    ensures Trim(s) == [] <==> forall i :: 0 <= i < |s| ==> Trimmable(s[i])
  {
    var t := TrimStart(s);
    if Trim(s) == [] {
      if t != [] {
        assert false;
      }
    }
  }

  /** String.toUpperCase, for the ASCII letters. */
  function UpperChar(c: char): char {
    if 'a' <= c <= 'z' then (c as int - 32) as char else c
  }

  function ToUpperCase(s: string): (r: string)
    ensures |r| == |s|
    ensures forall i :: 0 <= i < |s| ==> r[i] == UpperChar(s[i])
  {
    seq(|s|, i requires 0 <= i < |s| => UpperChar(s[i]))
  }

  predicate StartsWith(s: string, prefix: string) {
    |prefix| <= |s| && s[..|prefix|] == prefix
  }

  /** Position of the first occurrence of `c`. */
  function IndexOf(s: string, c: char): (k: nat)
    requires c in s
    ensures k < |s| && s[k] == c && c !in s[..k]
  {
    if s[0] == c then 0
    else
      var k := 1 + IndexOf(s[1..], c);
      assert s[..k] == [s[0]] + s[1..][..k - 1];
      k
  }

  /** Every field between occurrences of `sep`, empty ones included. */
  function SplitAll(s: string, sep: char): (r: seq<string>)
    ensures |r| >= 1
    ensures forall i :: 0 <= i < |r| ==> sep !in r[i]
    decreases |s|
  {
    if sep !in s then [s]
    else
      var k := IndexOf(s, sep);
      [s[..k]] + SplitAll(s[k + 1..], sep)
  }

  /** Glue fields back together with the separator between them. */
  function Join(fields: seq<string>, sep: char): string
    requires |fields| >= 1
  {
    if |fields| == 1 then fields[0] else fields[0] + [sep] + Join(fields[1..], sep)
  }

  /** Splitting loses nothing: the fields joined again give the input back. */
  lemma {:induction false} JoinSplitAll(s: string, sep: char)
    ensures Join(SplitAll(s, sep), sep) == s
    decreases |s|
  {
    if sep in s {
      var k := IndexOf(s, sep);
      var rest := SplitAll(s[k + 1..], sep);
      assert SplitAll(s, sep) == [s[..k]] + rest;
      assert Join([s[..k]] + rest, sep) == s[..k] + [sep] + Join(rest, sep) by {
        assert ([s[..k]] + rest)[1..] == rest;
      }
      JoinSplitAll(s[k + 1..], sep);
      assert s == s[..k] + [sep] + s[k + 1..];
    } else {
      assert SplitAll(s, sep) == [s];
    }
  }

  function DropTrailingEmpty(fields: seq<string>): (r: seq<string>)
    ensures |r| <= |fields| && r == fields[..|r|]
    ensures r == [] || r[|r| - 1] != []
    ensures forall i :: |r| <= i < |fields| ==> fields[i] == []
  {
    if |fields| > 0 && fields[|fields| - 1] == [] then DropTrailingEmpty(fields[..|fields| - 1])
    else fields
  }

  /** String.split(regex) for a regex matching the single character `sep`:
      with no match the input itself, otherwise the fields with trailing
      empty ones removed. */
  function Split(s: string, sep: char): (r: seq<string>)
    ensures sep !in s ==> r == [s]
    ensures sep in s ==> |r| <= |SplitAll(s, sep)| && r == SplitAll(s, sep)[..|r|]
    ensures sep in s ==> forall i :: |r| <= i < |SplitAll(s, sep)| ==> SplitAll(s, sep)[i] == []
    ensures forall i :: 0 <= i < |r| ==> sep !in r[i]
  {
    if sep !in s then [s] else DropTrailingEmpty(SplitAll(s, sep))
  }

  /** `s.split(":", 2)[1]` when `s` holds a colon: everything after the first one. */
  function AfterFirst(s: string, sep: char): (r: string)
    requires sep in s
    ensures exists k :: 0 <= k < |s| && s[k] == sep && sep !in s[..k] && r == s[k + 1..]
  {
    var k := IndexOf(s, sep);
    s[k + 1..]
  }
}
