/**
 * The icon-name conversion of frontend/src/components/ui/DynamicIcon.tsx:
 * a kebab-case name is split at '-', each part gets its first character
 * upper-cased, and the parts are joined with nothing between them
 * ("arrow-up-right" becomes "ArrowUpRight").
 *
 * `toUpperCase` is modelled on ASCII letters only; other characters are
 * left as they are. The lookup in the icon table is not modelled.
 */
module DynamicIcon {
  import Seqs

  /** ASCII upper-casing: 'a'..'z' become 'A'..'Z', everything else is kept. */
  function Upper(c: char): (r: char)
    ensures c != '-' ==> r != '-'
    ensures c == '-' ==> r == '-'
  {
    if 'a' <= c <= 'z' then (c as int - 'a' as int + 'A' as int) as char else c
  }

  /** `name.split('-')` with JavaScript's rules: "" and "a--b" keep their empty parts. */
  function Split(s: string): (r: seq<string>)
    ensures |r| >= 1
    ensures forall i :: 0 <= i < |r| ==> '-' !in r[i]
  {
    if s == [] then [""]
    else
      var rest := Split(s[1..]);
      if s[0] == '-' then [""] + rest
      else [[s[0]] + rest[0]] + rest[1..]
  }

  /** `parts.join(sep)`. */
  function JoinWith(parts: seq<string>, sep: string): string
  {
    if parts == [] then "" else if |parts| == 1 then parts[0] else parts[0] + sep + JoinWith(parts[1..], sep)
  }

  /** Joining the parts back with '-' restores the name: the split loses nothing. */
  lemma {:induction false} SplitJoin(s: string)
    ensures JoinWith(Split(s), "-") == s
  {
    if s != [] {
      var rest := Split(s[1..]);
      SplitJoin(s[1..]);
      if s[0] == '-' {
        assert s == "-" + s[1..];
      } else {
        var r := Split(s);
        assert r[0] == [s[0]] + rest[0];
        assert r[1..] == rest[1..];
        if |rest| == 1 {
          assert s == [s[0]] + rest[0];
        } else {
          assert JoinWith(rest, "-") == rest[0] + "-" + JoinWith(rest[1..], "-");
          assert s == [s[0]] + (rest[0] + "-" + JoinWith(rest[1..], "-"));
        }
      }
    }
  }

  /** `part.charAt(0).toUpperCase() + part.slice(1)`: the empty part stays empty. */
  function Capitalize(part: string): string
  {
    if part == [] then "" else [Upper(part[0])] + part[1..]
  }

  /** `.map(capitalize).join('')`. */
  function CapitalizeAll(parts: seq<string>): string
  {
    if parts == [] then "" else Capitalize(parts[0]) + CapitalizeAll(parts[1..])
  }

  /** The name handed to the icon table. */
  function PascalName(name: string): string
  {
    CapitalizeAll(Split(name))
  }

  /**
   * Reference definition as a left-to-right scan: a '-' is dropped and makes
   * the next character a part start; a part start is upper-cased.
   */
  function Scan(s: string, atStart: bool): string
  {
    if s == [] then ""
    else if s[0] == '-' then Scan(s[1..], true)
    else [if atStart then Upper(s[0]) else s[0]] + Scan(s[1..], false)
  }

  /** The split-map-join conversion is the scan, started at a part start. */
  lemma {:induction false} PascalIsScan(s: string)
    ensures PascalName(s) == Scan(s, true)
    ensures Split(s)[0] + CapitalizeAll(Split(s)[1..]) == Scan(s, false)
  {
    if s != [] {
      PascalIsScan(s[1..]);
      if s[0] == '-' {
        HyphenStep(s);
      } else {
        LetterStep(s);
      }
    }
  }

  /** A leading '-' starts a new, empty part. */
  lemma HyphenStep(s: string)
    requires s != [] && s[0] == '-'
    requires PascalName(s[1..]) == Scan(s[1..], true)
    ensures PascalName(s) == Scan(s, true)
    ensures Split(s)[0] + CapitalizeAll(Split(s)[1..]) == Scan(s, false)
  {
    var rest := Split(s[1..]);
    var parts := Split(s);
    assert parts == [""] + rest;
    assert parts[0] == "" && parts[1..] == rest;
    assert CapitalizeAll(parts) == "" + CapitalizeAll(rest);
    assert "" + CapitalizeAll(rest) == CapitalizeAll(rest);
  }

  /** A leading character other than '-' joins the first part. */
  lemma LetterStep(s: string)
    requires s != [] && s[0] != '-'
    requires Split(s[1..])[0] + CapitalizeAll(Split(s[1..])[1..]) == Scan(s[1..], false)
    ensures PascalName(s) == Scan(s, true)
    ensures Split(s)[0] + CapitalizeAll(Split(s)[1..]) == Scan(s, false)
  {
    var rest := Split(s[1..]);
    var head := [s[0]] + rest[0];
    var parts := Split(s);
    var tail := CapitalizeAll(rest[1..]);
    assert parts == [head] + rest[1..];
    assert parts[0] == head && parts[1..] == rest[1..];
    assert head[0] == s[0] && head[1..] == rest[0];
    assert Capitalize(head) == [Upper(s[0])] + rest[0];
    assert CapitalizeAll(parts) == Capitalize(head) + tail;
    Seqs.ConcatAssociative([Upper(s[0])], rest[0], tail);
    Seqs.ConcatAssociative([s[0]], rest[0], tail);
  }

  function Hyphens(s: string): nat
  {
    if s == [] then 0 else (if s[0] == '-' then 1 else 0) + Hyphens(s[1..])
  }

  /** The scan drops the hyphens and keeps every other character, in place order. */
  lemma {:induction false} ScanShape(s: string, atStart: bool)
    ensures '-' !in Scan(s, atStart)
    ensures |Scan(s, atStart)| == |s| - Hyphens(s)
  {
    if s != [] {
      ScanShape(s[1..], true);
      ScanShape(s[1..], false);
    }
  }

  /** The converted name has no '-' and is shorter than the name by its number of hyphens. */
  lemma PascalShape(name: string)
    ensures '-' !in PascalName(name)
    ensures |PascalName(name)| == |name| - Hyphens(name)
  {
    PascalIsScan(name);
    ScanShape(name, true);
  }

  /** Without hyphens the scan copies the rest of the name unchanged. */
  lemma {:induction false} ScanNoHyphen(s: string)
    requires '-' !in s
    ensures Scan(s, false) == s
  {
    if s != [] {
      assert '-' !in s[1..] by {
        forall i | 0 <= i < |s[1..]|
          ensures s[1..][i] != '-'
        {
          assert s[1..][i] == s[i + 1];
        }
      }
      ScanNoHyphen(s[1..]);
    }
  }

  /** A name without hyphens only gets its first character upper-cased. */
  lemma NoHyphenName(name: string)
    requires '-' !in name
    ensures PascalName(name) == Capitalize(name)
  {
    PascalIsScan(name);
    if name != [] {
      assert '-' !in name[1..] by {
        forall i | 0 <= i < |name[1..]|
          ensures name[1..][i] != '-'
        {
          assert name[1..][i] == name[i + 1];
        }
      }
      ScanNoHyphen(name[1..]);
    }
  }

  /** Each part is capitalized on its own: the conversion of a list of parts is the conversions of its pieces, joined. */
  lemma {:induction false} CapitalizeAllConcat(a: seq<string>, b: seq<string>)
    ensures CapitalizeAll(a + b) == CapitalizeAll(a) + CapitalizeAll(b)
  {
    if a == [] {
      assert a + b == b;
    } else {
      var ab := a + b;
      assert ab[0] == a[0];
      assert ab[1..] == a[1..] + b;
      CapitalizeAllConcat(a[1..], b);
      var x, y, z := Capitalize(a[0]), CapitalizeAll(a[1..]), CapitalizeAll(b);
      assert CapitalizeAll(ab) == x + (y + z);
      assert CapitalizeAll(a) == x + y;
      Seqs.ConcatAssociative(x, y, z);
    }
  }

  /** An empty part, as between two adjacent hyphens, adds nothing to the name. */
  lemma EmptyPartAddsNothing(a: seq<string>, b: seq<string>)
    ensures CapitalizeAll(a + [""] + b) == CapitalizeAll(a) + CapitalizeAll(b)
  {
    var e: seq<string> := [""];
    assert e[1..] == [];
    assert CapitalizeAll(e) == "";
    CapitalizeAllConcat(a + e, b);
    CapitalizeAllConcat(a, e);
    assert CapitalizeAll(a) + "" == CapitalizeAll(a);
  }
}
