/**
 * The .NET library calls the core relies on.
 *
 * The naming policy, the case-insensitive comparer, trimming, boolean parsing and URI unescaping
 * are library code outside the repository. They are uninterpreted here: a `Library` value supplies
 * them, and no fact about them (not even idempotence of camel-casing) is assumed.
 * `String.Split` and `String.Join` are simple enough to be defined and proved.
 */
module Platform {

  datatype Library = Library(
    camelCase: string -> string,                    // JsonNamingPolicy.CamelCase.ConvertName
    equalsIgnoreCase: (string, string) -> bool,     // StringComparer.OrdinalIgnoreCase.Equals
    trim: string -> string,                         // string.Trim()
    tryParseBool: string -> bool,                   // bool.TryParse(s, out _)
    unescapeDataString: string -> string)           // Uri.UnescapeDataString

  /** The ArgumentException a dictionary throws when a key is added twice (`Add`, `ToDictionary`). */
  datatype Exception = DuplicateKey

  /** The camel-cased names of a set of keys. */
  function CamelImage(lib: Library, keys: set<string>): (names: set<string>)
    ensures forall k :: k in keys ==> lib.camelCase(k) in names
    ensures forall n :: n in names ==> exists k :: k in keys && lib.camelCase(k) == n
  {
    set k | k in keys :: lib.camelCase(k)
  }

  /** No two distinct keys camel-case to the same name: `ToDictionary` over camel-cased keys does not throw. */
  predicate CamelInjective(lib: Library, keys: set<string>) {
    forall a, b :: a in keys && b in keys && lib.camelCase(a) == lib.camelCase(b) ==> a == b
  }

  /** `s.Split(sep)` with no options: every separator cuts, empty pieces are kept. */
  function Split(s: string, sep: char): (parts: seq<string>)
    ensures |parts| >= 1
    ensures forall i :: 0 <= i < |parts| ==> sep !in parts[i]
  {
    if s == [] then [""]
    else
      var rest := Split(s[1..], sep);
      if s[0] == sep then [""] + rest
      else [[s[0]] + rest[0]] + rest[1..]
  }

  /** `string.Join(sep, parts)`. */
  function Join(parts: seq<string>, sep: char): string
    requires |parts| >= 1
  {
    if |parts| == 1 then parts[0] else parts[0] + [sep] + Join(parts[1..], sep)
  }

  /** Joining the pieces of a split gives back the original string. */
  lemma {:induction false} JoinSplit(s: string, sep: char)
    ensures Join(Split(s, sep), sep) == s
  {
    if s != [] {
      var rest := Split(s[1..], sep);
      JoinSplit(s[1..], sep);
      if s[0] == sep {
        assert Split(s, sep) == [""] + rest;
        assert ([""] + rest)[1..] == rest;
      } else {
        var parts := [[s[0]] + rest[0]] + rest[1..];
        assert Split(s, sep) == parts;
        if |rest| == 1 {
          assert Join(parts, sep) == [s[0]] + rest[0];
        } else {
          assert parts[1..] == rest[1..];
          assert Join(parts, sep) == [s[0]] + rest[0] + [sep] + Join(rest[1..], sep);
        }
        assert s == [s[0]] + s[1..];
      }
    }
  }

  lemma {:induction false} SplitPlain(p: string, sep: char)
    requires sep !in p
    ensures Split(p, sep) == [p]
  {
    if p != [] {
      SplitPlain(p[1..], sep);
      assert p == [p[0]] + p[1..];
    }
  }

  lemma {:induction false} SplitAtSeparator(p: string, sep: char, tail: string)
    requires sep !in p
    ensures Split(p + [sep] + tail, sep) == [p] + Split(tail, sep)
  {
    if p == [] {
      assert [] + [sep] + tail == [sep] + tail;
      assert ([sep] + tail)[1..] == tail;
    } else {
      SplitAtSeparator(p[1..], sep, tail);
      assert (p + [sep] + tail)[1..] == p[1..] + [sep] + tail;
      assert (p + [sep] + tail)[0] == p[0];
      assert [p[0]] + p[1..] == p;
    }
  }

  /** Splitting a join of separator-free pieces gives back the pieces. */
  lemma {:induction false} SplitJoin(parts: seq<string>, sep: char)
    requires |parts| >= 1
    requires forall i :: 0 <= i < |parts| ==> sep !in parts[i]
    ensures Split(Join(parts, sep), sep) == parts
  {
    if |parts| == 1 {
      SplitPlain(parts[0], sep);
    } else {
      SplitJoin(parts[1..], sep);
      SplitAtSeparator(parts[0], sep, Join(parts[1..], sep));
      assert [parts[0]] + parts[1..] == parts;
    }
  }
}
