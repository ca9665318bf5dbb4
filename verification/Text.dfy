/**
 Strings: the order Go's string comparison gives, and splitting at a separator.
 */
module Text {

  /** Lexicographic order on code units. */
  predicate Less(a: string, b: string)
  {
    if b == "" then false
    else if a == "" then true
    else a[0] < b[0] || (a[0] == b[0] && Less(a[1..], b[1..]))
  }

  lemma {:induction false} LessTrichotomy(a: string, b: string)
    ensures Less(a, b) || a == b || Less(b, a)
    ensures !(Less(a, b) && Less(b, a)) && !Less(a, a)
  {
    if a != "" && b != "" {
      LessTrichotomy(a[1..], b[1..]);
      if a[0] == b[0] && a[1..] == b[1..] {
        assert a == [a[0]] + a[1..] == b;
      }
    }
    if a != "" {
      LessTrichotomy(a[1..], a[1..]);
    }
  }

  lemma {:induction false} LessTransitive(a: string, b: string, c: string)
    requires Less(a, b) && Less(b, c)
    ensures Less(a, c)
  {
    if a != "" && a[0] == b[0] == c[0] {
      LessTransitive(a[1..], b[1..], c[1..]);
    }
  }

  /** The strings part at position `i`, where `a` has the lower character or has ended. */
  ghost predicate PartsAt(a: string, b: string, i: nat) {
    i <= |a| && i < |b| && a[..i] == b[..i] && (i == |a| || a[i] < b[i])
  }

  /** The order is decided at the first position where the strings part. */
  lemma {:induction false} LessExact(a: string, b: string)
    ensures Less(a, b) <==> exists i: nat :: PartsAt(a, b, i)
  {
    if a == "" {
      if b != "" { assert PartsAt(a, b, 0); }
    } else if b != "" {
      if a[0] < b[0] {
        assert PartsAt(a, b, 0);
      } else {
        LessExact(a[1..], b[1..]);
        if i: nat :| PartsAt(a[1..], b[1..], i) {
          if a[0] == b[0] {
            assert a[..i + 1] == [a[0]] + a[1..][..i] && b[..i + 1] == [b[0]] + b[1..][..i];
            assert PartsAt(a, b, i + 1);
          }
        }
        if i: nat :| PartsAt(a, b, i) {
          assert i > 0 && a[0] == a[..i][0] == b[..i][0];
          assert a[1..][..i - 1] == a[..i][1..] && b[1..][..i - 1] == b[..i][1..];
          assert PartsAt(a[1..], b[1..], i - 1);
        }
      }
    }
  }

  /** Position of the first `c` in `s`. */
  function IndexOf(s: string, c: char): (i: nat)
    requires c in s
    ensures i < |s| && s[i] == c && c !in s[..i]
  {
    if s[0] == c then 0 else
      assert s == [s[0]] + s[1..];
      var j := IndexOf(s[1..], c);
      assert s[..j + 1] == [s[0]] + s[1..][..j];
      j + 1
  }

  function Split(s: string, sep: char): seq<string> {
    if sep !in s then [s]
    else
      var i := IndexOf(s, sep);
      [s[..i]] + Split(s[i + 1..], sep)
  }

  lemma FirstSeparator(a: string, b: string, sep: char)
    requires sep !in a
    ensures sep in a + [sep] + b && IndexOf(a + [sep] + b, sep) == |a|
  {
    var s := a + [sep] + b;
    assert s[|a|] == sep;
    assert forall j :: 0 <= j < |a| ==> s[j] == a[j];
  }

  lemma SplitOne(s: string, sep: char)
    ensures |Split(s, sep)| == 1 <==> sep !in s
  {
    if sep in s {
      assert |Split(s[IndexOf(s, sep) + 1..], sep)| >= 1;
    }
  }

  /** Splitting gives two parts exactly when the string is those parts around one separator. */
  lemma SplitInTwo(s: string, a: string, b: string, sep: char)
    ensures Split(s, sep) == [a, b] <==> s == a + [sep] + b && sep !in a && sep !in b
  {
    if s == a + [sep] + b && sep !in a && sep !in b {
      FirstSeparator(a, b, sep);
      assert s[..|a|] == a && s[|a| + 1..] == b;
    }
    if Split(s, sep) == [a, b] {
      var i := IndexOf(s, sep);
      assert [s[..i]] + Split(s[i + 1..], sep) == [a, b];
      assert Split(s[i + 1..], sep) == [a, b][1..] == [b];
      SplitOne(s[i + 1..], sep);
      assert s == s[..i] + [sep] + s[i + 1..];
      assert s[..i] == [a, b][0];
    }
  }
}
