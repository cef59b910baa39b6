/** Renaming of checkpoint sections (util/checkpoint_aggregator.py).

When checkpoints are merged, every "cpu" in a section name is followed by the number of
the checkpoint, padded with zeros to one width.
 */
module SectionNames {
  import opened Results
  import opened Text

  const CPU := "cpu"

  predicate StartsCpu(s: string) {
    |s| >= 3 && s[0] == 'c' && s[1] == 'p' && s[2] == 'u'
  }

  /** `re.compile("cpu").search(s)`. */
  predicate HasCpu(s: string) {
    s != "" && (StartsCpu(s) || HasCpu(s[1..]))
  }

  /** `re.sub("cpu", "cpu" + digits, s)`. */
  function Rename(s: string, digits: string): string {
    if s == "" then ""
    else if StartsCpu(s) then CPU + (digits + Rename(s[3..], digits))
    else [s[0]] + Rename(s[1..], digits)
  }

  /** The number of checkpoint `i` out of `n`. */
  function Number(i: nat, n: nat): string
    requires i < n
  {
    ZFill(Str(i), |Str(n - 1)|)
  }

  /** Dropping `width` characters after every "cpu". */
  function Restore(s: string, width: nat): string {
    if s == "" then ""
    else if StartsCpu(s) then
      if |s| < 3 + width then CPU else CPU + Restore(s[3 + width..], width)
    else [s[0]] + Restore(s[1..], width)
  }

  lemma RenameFirst(s: string, digits: string)
    requires s != ""
    ensures Rename(s, digits) != "" && Rename(s, digits)[0] == s[0]
  {
  }

  /** Renaming neither creates nor breaks a leading "cpu". */
  lemma RenameStart(s: string, digits: string)
    ensures StartsCpu(Rename(s, digits)) <==> StartsCpu(s)
  {
    if s != "" && !StartsCpu(s) {
      var t := s[1..];
      if t != "" && s[0] == 'c' {
        RenameFirst(t, digits);
        if t[0] == 'p' && t[1..] != "" {
          assert !StartsCpu(t);
          RenameFirst(t[1..], digits);
        }
      }
    }
  }

  lemma {:induction false} RestoreRename(s: string, digits: string)
    ensures Restore(Rename(s, digits), |digits|) == s
    decreases |s|
  {
    RenameStart(s, digits);
    if s == "" {
    } else {
      var r := Rename(s, digits);
      if StartsCpu(s) {
        RestoreRename(s[3..], digits);
        assert r[3 + |digits|..] == Rename(s[3..], digits);
        assert s == CPU + s[3..];
      } else {
        RestoreRename(s[1..], digits);
        assert r[1..] == Rename(s[1..], digits);
      }
    }
  }

  lemma {:induction false} RenameDigits(s: string, d: string, e: string)
    requires HasCpu(s) && |d| == |e| && Rename(s, d) == Rename(s, e)
    ensures d == e
    decreases |s|
  {
    if StartsCpu(s) {
      assert Rename(s, d)[3..3 + |d|] == d && Rename(s, e)[3..3 + |e|] == e;
    } else {
      assert Rename(s, d)[1..] == Rename(s[1..], d) && Rename(s, e)[1..] == Rename(s[1..], e);
      RenameDigits(s[1..], d, e);
    }
  }

  lemma {:induction false} StrLength(a: nat, b: nat)
    requires a <= b
    ensures |Str(a)| <= |Str(b)|
  {
    if a >= 10 {
      StrLength(a / 10, b / 10);
    }
  }

  lemma NumberWidth(i: nat, n: nat)
    requires i < n
    ensures |Number(i, n)| == |Str(n - 1)|
  {
    StrLength(i, n - 1);
  }

  lemma NumberInjective(i: nat, j: nat, n: nat)
    requires i < n && j < n && Number(i, n) == Number(j, n)
    ensures i == j
  {
    ParseZFill(i, |Str(n - 1)|);
    ParseZFill(j, |Str(n - 1)|);
  }

  /** The new name determines the checkpoint and the old name: no two sections of any of
      the merged checkpoints get the same name. */
  lemma RenameInjective(i: nat, s: string, j: nat, t: string, n: nat)
    requires i < n && j < n && HasCpu(s) && HasCpu(t)
    requires Rename(s, Number(i, n)) == Rename(t, Number(j, n))
    ensures i == j && s == t
  {
    NumberWidth(i, n);
    NumberWidth(j, n);
    RestoreRename(s, Number(i, n));
    RestoreRename(t, Number(j, n));
    RenameDigits(s, Number(i, n), Number(j, n));
    NumberInjective(i, j, n);
  }

  lemma {:induction false} RenameKeepsCpu(s: string, digits: string)
    requires HasCpu(s)
    ensures HasCpu(Rename(s, digits))
  {
    RenameStart(s, digits);
    if !StartsCpu(s) {
      RenameKeepsCpu(s[1..], digits);
      assert Rename(s, digits)[1..] == Rename(s[1..], digits);
    }
  }

  // ---- What renaming does, in terms of the text ----

  lemma {:induction false} HasCpuAt(a: string, b: string)
    ensures HasCpu(a + "cpu" + b)
  {
    var s := a + "cpu" + b;
    if a == "" {
      assert s[0] == 'c' && s[1] == 'p' && s[2] == 'u';
    } else {
      HasCpuAt(a[1..], b);
      assert s[1..] == a[1..] + "cpu" + b;
    }
  }

  lemma {:induction false} FindCpu(s: string) returns (a: string, b: string)
    requires HasCpu(s)
    ensures s == a + "cpu" + b && !HasCpu(a)
  {
    if StartsCpu(s) {
      a, b := "", s[3..];
    } else {
      var a';
      a', b := FindCpu(s[1..]);
      a := [s[0]] + a';
      assert a[1..] == a';
    }
  }

  /** The section is one of a cpu exactly when its name contains "cpu". */
  lemma HasCpuExactly(s: string)
    ensures HasCpu(s) <==> exists a, b :: s == a + "cpu" + b
  {
    if HasCpu(s) {
      var a, b := FindCpu(s);
    }
    if a, b :| s == a + "cpu" + b {
      HasCpuAt(a, b);
    }
  }

  lemma {:induction false} RenameNone(s: string, digits: string)
    requires !HasCpu(s)
    ensures Rename(s, digits) == s
  {
    if s == "" {
    } else {
      RenameNone(s[1..], digits);
    }
  }

  /** The digits come right after the first "cpu", and the rest is renamed in the same way;
      a text without "cpu" stays as it is. */
  lemma {:induction false} RenameFirstCpu(a: string, b: string, digits: string)
    requires !HasCpu(a)
    ensures Rename(a + "cpu" + b, digits) == a + "cpu" + digits + Rename(b, digits)
  {
    var s := a + "cpu" + b;
    if a == "" {
      assert s[3..] == b;
      assert s[0] == 'c' && s[1] == 'p' && s[2] == 'u';
    } else {
      assert s[1..] == a[1..] + "cpu" + b;
      RenameFirstCpu(a[1..], b, digits);
      assert [a[0]] + (a[1..] + "cpu" + digits + Rename(b, digits)) == a + "cpu" + digits + Rename(b, digits);
    }
  }

  /** The number of checkpoint `i` of `n` is `i` in decimal, as wide as that of the last one. */
  lemma NumberIs(i: nat, n: nat)
    requires i < n
    ensures |Number(i, n)| == |Str(n - 1)| && ParseNat(Number(i, n)) == Some(i)
  {
    NumberWidth(i, n);
    ParseZFill(i, |Str(n - 1)|);
  }
}
