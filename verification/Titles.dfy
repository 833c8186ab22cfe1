/** Steam titles and their builds (internal/library/steam.go). */
module Titles {
  import opened Wrappers

  const STATE_INSTALLED := 4
  const INT64_MAX := 0x7fff_ffff_ffff_ffff

  datatype App = App(id: string, name: string, dir: string, build: string, flags: int, modTime: int)

  predicate Installed(a: App)
  {
    a.flags == STATE_INSTALLED && a.dir != "" && a.id != ""
  }

  predicate IsDigit(c: char)
  {
    '0' <= c <= '9'
  }

  predicate Numeric(s: string)
  {
    s != "" && forall i :: 0 <= i < |s| ==> IsDigit(s[i])
  }

  function Digits(s: string): nat
    requires forall i :: 0 <= i < |s| ==> IsDigit(s[i])
  {
    if s == "" then 0 else
    assert IsDigit(s[|s| - 1]);
    10 * Digits(s[..|s| - 1]) + (s[|s| - 1] as int - '0' as int)
  }

  /** strconv.ParseInt(s, 10, 64): an optional sign, digits, and within range. */
  function ParseInt64(s: string): Option<int>
  {
    var minus := s != "" && s[0] == '-';
    var rest := if s != "" && (s[0] == '-' || s[0] == '+') then s[1..] else s;
    if !Numeric(rest) then None else
    var v: int := Digits(rest);
    if minus then (if v <= INT64_MAX + 1 then Some(-v) else None)
    else if v <= INT64_MAX then Some(v) else None
  }

  // ---- What a number says

  /** strconv.Itoa. */
  function Itoa(n: nat): string
  {
    var d := ['0' + (n % 10) as char];
    if n < 10 then d else Itoa(n / 10) + d
  }

  lemma {:induction false} ItoaReads(n: nat)
    ensures Numeric(Itoa(n)) && Digits(Itoa(n)) == n
  {
    var d := ['0' + (n % 10) as char];
    assert IsDigit(d[0]) && d[..0] == "";
    assert Digits(d) == n % 10;
    if n >= 10 {
      ItoaReads(n / 10);
      var s := Itoa(n / 10) + d;
      assert s[..|s| - 1] == Itoa(n / 10);
    }
  }

  function Zeros(z: nat): string
  {
    seq(z, _ => '0')
  }

  /** The text is this number as it is written, with or without zeros before it, with a minus
      if it is negative, and otherwise perhaps with a plus; a minus zero is zero. */
  ghost predicate Denotes(s: string, v: int)
  {
    exists sign, z: nat :: DenotesAs(s, sign, z, v)
  }

  predicate DenotesAs(s: string, sign: string, z: nat, v: int)
  {
    && s == sign + (Zeros(z) + Itoa(if v < 0 then -v else v))
    && (if v < 0 then sign == "-" else sign == "" || sign == "+" || (sign == "-" && v == 0))
  }

  lemma {:induction false} DigitsZeros(z: nat, s: string)
    requires forall i :: 0 <= i < |s| ==> IsDigit(s[i])
    ensures forall i :: 0 <= i < |Zeros(z) + s| ==> IsDigit((Zeros(z) + s)[i])
    ensures Digits(Zeros(z) + s) == Digits(s)
    decreases z + |s|
  {
    var t := Zeros(z) + s;
    if s != "" {
      assert t[..|t| - 1] == Zeros(z) + s[..|s| - 1];
      DigitsZeros(z, s[..|s| - 1]);
    } else if z > 0 {
      assert t[..|t| - 1] == Zeros(z - 1) + s;
      DigitsZeros(z - 1, s);
    }
  }

  /** Digits are zeros and the number they say. */
  lemma {:induction false} DigitsAre(s: string) returns (z: nat)
    requires Numeric(s)
    ensures s == Zeros(z) + Itoa(Digits(s))
  {
    var n := |s| - 1;
    var front, d := s[..n], s[n];
    assert IsDigit(d) && s == front + [d];
    if front == "" {
      z := 0;
      assert Digits(front) == 0;
    } else {
      assert Numeric(front);
      z := DigitsAre(front);
      if Digits(front) == 0 {
        assert front == Zeros(z + 1);
        z := z + 1;
      }
    }
  }

  lemma ReadsWhatItDenotes(s: string, sign: string, z: nat, v: int)
    requires DenotesAs(s, sign, z, v) && -INT64_MAX - 1 <= v <= INT64_MAX
    ensures ParseInt64(s) == Some(v)
  {
    var n := if v < 0 then -v else v;
    ItoaReads(n);
    DigitsZeros(z, Itoa(n));
    var rest := Zeros(z) + Itoa(n);
    assert Numeric(rest) && rest[0] != '-' && rest[0] != '+' by {
      assert IsDigit(rest[0]);
    }
    assert (sign + rest)[|sign|..] == rest;
    if sign == "" {
      assert sign + rest == rest;
    }
  }

  lemma DenotesWhatItReads(s: string)
    requires ParseInt64(s).Some?
    ensures Denotes(s, ParseInt64(s).value) && -INT64_MAX - 1 <= ParseInt64(s).value <= INT64_MAX
  {
    var v := ParseInt64(s).value;
    var sign := if s[0] == '-' || s[0] == '+' then s[..1] else "";
    var rest := s[|sign|..];
    var z := DigitsAre(rest);
    assert s == sign + rest;
    assert DenotesAs(s, sign, z, v);
  }

  /** ParseInt of 64 bits: what the text says, if it says anything in range. */
  lemma ParsesIff(s: string, v: int)
    ensures ParseInt64(s) == Some(v) <==> Denotes(s, v) && -INT64_MAX - 1 <= v <= INT64_MAX
  {
    if ParseInt64(s).Some? {
      DenotesWhatItReads(s);
    }
    if Denotes(s, v) && -INT64_MAX - 1 <= v <= INT64_MAX {
      var sign, z: nat :| DenotesAs(s, sign, z, v);
      ReadsWhatItDenotes(s, sign, z, v);
    }
  }

  /** Whether build `a` is later than build `b`; unknown builds are later than nothing. */
  predicate NewerBuild(a: string, b: string)
  {
    var x, y := ParseInt64(a), ParseInt64(b);
    x.Some? && y.Some? && x.value > y.value
  }

  /** The number that build `a` says is greater than the one that `b` says, both of 64 bits.
      A build that says none is later than nothing, and nothing is later than it. */
  lemma NewerBuildIff(a: string, b: string)
    ensures NewerBuild(a, b) <==>
      exists x, y :: Denotes(a, x) && Denotes(b, y) && -0x8000_0000_0000_0000 <= y < x <= 0x7fff_ffff_ffff_ffff
  {
    if NewerBuild(a, b) {
      DenotesWhatItReads(a);
      DenotesWhatItReads(b);
    }
    if x, y :| Denotes(a, x) && Denotes(b, y) && -0x8000_0000_0000_0000 <= y < x <= 0x7fff_ffff_ffff_ffff {
      ParsesIff(a, x);
      ParsesIff(b, y);
    }
  }

  /** Steam's build numbers, as it writes them. */
  lemma NewerIsGreater(n: nat, m: nat)
    requires n <= 0x7fff_ffff_ffff_ffff && m <= 0x7fff_ffff_ffff_ffff
    ensures NewerBuild(Itoa(n), Itoa(m)) <==> n > m
  {
    assert DenotesAs(Itoa(n), "", 0, n) by {
      assert "" + (Zeros(0) + Itoa(n)) == Itoa(n);
    }
    assert DenotesAs(Itoa(m), "", 0, m) by {
      assert "" + (Zeros(0) + Itoa(m)) == Itoa(m);
    }
    ReadsWhatItDenotes(Itoa(n), "", 0, n);
    ReadsWhatItDenotes(Itoa(m), "", 0, m);
  }

  /** The file name Steam uses for an app. */
  function ManifestName(id: string): string
  {
    "appmanifest_" + id + ".acf"
  }

  /** safeName. */
  predicate SafeName(name: string)
  {
    name != "" && name[0] != '.' && '/' !in name && '\\' !in name
  }
}
