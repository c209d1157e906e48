/** `export_paths.py` (sdk/api) and `_numbered` of `export_tree.py`: which names are one safe path component, and the
    names made safe. */
module ExportPaths {
  import opened Basics

  /** The system exported to: whether it is Windows, Unicode's upper-casing and case folding of one character, and what
      its paths compare a component by. */
  datatype System = System(windows: bool, upper: char -> string, fold: char -> string, norm: string -> string)

  function Map(f: char -> string, s: string): string {
    if s == "" then "" else Map(f, s[..|s| - 1]) + f(s[|s| - 1])
  }

  predicate IsDigit(c: char) { '0' <= c <= '9' }

  /** What is relied on: ASCII upper-casing of `_` and `)`, folding of digits, and components that compare equal folding
      alike; on a system other than Windows only identical ones compare equal. */
  ghost predicate Sound(sys: System) {
    && sys.upper('_') == "_" && sys.upper(')') == ")"
    && (forall c :: IsDigit(c) ==> sys.fold(c) == [c])
    && (forall a, b :: sys.norm(a) == sys.norm(b) ==> Map(sys.fold, a) == Map(sys.fold, b))
    && (!sys.windows ==> forall a :: sys.norm(a) == a)
  }

  predicate IsSeparator(c: char) { c == '/' || c == '\\' || c == '\0' }

  /** `WINDOWS_FORBIDDEN_NAME_CHARS` */
  predicate IsForbidden(c: char) {
    c == '<' || c == '>' || c == ':' || c == '"' || c == '|' || c == '?' || c == '*' || c < ' '
  }

  /** `CON`, `PRN`, `AUX`, `NUL`, `COM1` to `COM9` and `LPT1` to `LPT9`. */
  predicate IsDevice(s: string) {
    || s == "CON" || s == "PRN" || s == "AUX" || s == "NUL"
    || (|s| == 4 && (s[..3] == "COM" || s[..3] == "LPT") && '1' <= s[3] <= '9')
  }

  /** `name.split(".", 1)[0]` */
  function Base(name: string): string {
    if name == "" || name[0] == '.' then "" else [name[0]] + Base(name[1..])
  }

  /** `windows_reserved_basename` */
  predicate Reserved(sys: System, name: string) { IsDevice(Map(sys.upper, Base(name))) }

  predicate EndsLoose(s: string) { s != "" && (s[|s| - 1] == '.' || s[|s| - 1] == ' ') }

  /** `_unsafe_on_windows` */
  predicate UnsafeOnWindows(sys: System, s: string) {
    (exists i :: 0 <= i < |s| && IsForbidden(s[i])) || EndsLoose(s) || Reserved(sys, s)
  }

  /** A segment `safe_export_join` accepts. */
  predicate Safe(sys: System, s: string) {
    && s != "" && s != "." && s != ".." && (forall i :: 0 <= i < |s| ==> !IsSeparator(s[i]))
    && !(sys.windows && UnsafeOnWindows(sys, s))
  }

  predicate AllSafe(sys: System, segments: seq<string>) {
    forall i :: 0 <= i < |segments| ==> Safe(sys, segments[i])
  }

  /** `safe_export_join`, the result relative to the root; appending a safe segment is all that `root / segment` does.
      */
  method SafeExportJoin(sys: System, segments: seq<string>) returns (path: Option<seq<string>>)
    ensures path == if AllSafe(sys, segments) then Some(segments) else None
  {
    var result: seq<string> := [];
    for i := 0 to |segments|
      invariant AllSafe(sys, segments[..i]) && result == segments[..i]
    {
      if !Safe(sys, segments[i]) {
        return None;
      }
      result := result + [segments[i]];
    }
    assert segments[..|segments|] == segments;
    return Some(result);
  }

  // ------------------------------------------------------------------------------------------------------
  // safe_file_name
  // ------------------------------------------------------------------------------------------------------

  function Clean(sys: System, c: char): char {
    if IsSeparator(c) || (sys.windows && IsForbidden(c)) then '_' else c
  }

  /** `rstrip(". ")` */
  function Stripped(s: string): string
    decreases |s|
  {
    if EndsLoose(s) then Stripped(s[..|s| - 1]) else s
  }

  function FileName(sys: System, name: string): string {
    var cleaned := seq(|name|, i requires 0 <= i < |name| => Clean(sys, name[i]));
    var stripped := if sys.windows then Stripped(cleaned) else cleaned;
    var freed := if sys.windows && Reserved(sys, stripped) then "_" + stripped else stripped;
    if freed == "" || freed == "." || freed == ".." then "_" else freed
  }

  /** `safe_file_name`: always a safe component, and a safe name unchanged. */
  method SafeFileName(sys: System, name: string) returns (sanitized: string)
    requires Sound(sys)
    ensures sanitized == FileName(sys, name)
    ensures Safe(sys, sanitized) && (Safe(sys, name) ==> sanitized == name)
  {
    FileNameIsSafe(sys, name);
    if Safe(sys, name) { SafeNameStays(sys, name); }
    hide Safe, Reserved;
    sanitized := "";
    for i := 0 to |name|
      invariant |sanitized| == i && forall j :: 0 <= j < i ==> sanitized[j] == Clean(sys, name[j])
    {
      sanitized := sanitized + [Clean(sys, name[i])];
    }
    assert sanitized == seq(|name|, i requires 0 <= i < |name| => Clean(sys, name[i]));
    if sys.windows {
      ghost var cleaned := sanitized;
      while EndsLoose(sanitized)
        invariant Stripped(sanitized) == Stripped(cleaned)
        decreases |sanitized|
      {
        sanitized := sanitized[..|sanitized| - 1];
      }
      if Reserved(sys, sanitized) {
        sanitized := "_" + sanitized;
      }
    }
    if sanitized == "" || sanitized == "." || sanitized == ".." {
      sanitized := "_";
    }
  }

  lemma {:induction false} StrippedIsPrefix(s: string)
    ensures Stripped(s) <= s && !EndsLoose(Stripped(s))
    decreases |s|
  {
    if EndsLoose(s) { StrippedIsPrefix(s[..|s| - 1]); }
  }

  lemma {:induction false} MapStarts(f: char -> string, s: string)
    requires s != ""
    ensures f(s[0]) <= Map(f, s)
  {
    if |s| == 1 {
      assert Map(f, s[..0]) == "";
    } else {
      MapStarts(f, s[..|s| - 1]);
    }
  }

  lemma {:induction false} MapAppends(f: char -> string, a: string, b: string)
    ensures Map(f, a + b) == Map(f, a) + Map(f, b)
  {
    if b == "" {
      assert a + b == a;
    } else {
      assert (a + b)[..|a + b| - 1] == a + b[..|b| - 1];
      MapAppends(f, a, b[..|b| - 1]);
    }
  }

  lemma UnderscoreFrees(sys: System, s: string)
    requires Sound(sys)
    ensures !Reserved(sys, "_" + s)
  {
    var base := Base("_" + s);
    assert base != "" && base[0] == '_';
    MapStarts(sys.upper, base);
    assert Map(sys.upper, base)[0] == '_';
    assert forall d :: IsDevice(d) ==> d[0] != '_';
  }

  lemma FileNameIsSafe(sys: System, name: string)
    requires Sound(sys)
    ensures Safe(sys, FileName(sys, name))
  {
    hide Reserved;
    var cleaned := seq(|name|, i requires 0 <= i < |name| => Clean(sys, name[i]));
    var stripped := if sys.windows then Stripped(cleaned) else cleaned;
    StrippedIsPrefix(cleaned);
    UnderscoreFrees(sys, stripped);
    UnderscoreFrees(sys, "");
    assert "_" + "" == "_";
    assert forall i :: 0 <= i < |stripped| ==> stripped[i] == cleaned[i];
  }

  lemma SafeNameStays(sys: System, name: string)
    requires Safe(sys, name)
    ensures FileName(sys, name) == name
  {
    hide Reserved;
    var cleaned := seq(|name|, i requires 0 <= i < |name| => Clean(sys, name[i]));
    assert cleaned == name;
  }

  /** Making a name safe twice changes nothing more. */
  lemma FileNameIdempotent(sys: System, name: string)
    requires Sound(sys)
    ensures FileName(sys, FileName(sys, name)) == FileName(sys, name)
  {
    hide FileName, Safe;
    FileNameIsSafe(sys, name);
    SafeNameStays(sys, FileName(sys, name));
  }

  // ------------------------------------------------------------------------------------------------------
  // _numbered
  // ------------------------------------------------------------------------------------------------------

  /** `str(n)` */
  function Decimal(n: nat): (s: string)
    ensures s != "" && forall i :: 0 <= i < |s| ==> IsDigit(s[i])
  {
    (if n < 10 then "" else Decimal(n / 10)) + ['0' + (n % 10) as char]
  }

  lemma {:induction false} DecimalInjective(n: nat, m: nat)
    requires Decimal(n) == Decimal(m)
    ensures n == m
  {
    var (s, t) := (Decimal(n), Decimal(m));
    assert s[|s| - 1] == t[|t| - 1];
    assert n % 10 == m % 10;
    assert s[..|s| - 1] == t[..|t| - 1];
    if n >= 10 && m >= 10 {
      assert s[..|s| - 1] == Decimal(n / 10) && t[..|t| - 1] == Decimal(m / 10);
      DecimalInjective(n / 10, m / 10);
    } else {
      assert |s| == 1 || |t| == 1;
    }
  }

  /** Where the last dot is; -1 if there is none. */
  function LastDot(s: string): (d: int)
    ensures -1 <= d < |s|
    ensures d >= 0 ==> s[d] == '.'
    ensures forall i :: d < i < |s| ==> s[i] != '.'
  {
    if s == "" then -1 else if s[|s| - 1] == '.' then |s| - 1 else LastDot(s[..|s| - 1])
  }

  /** What comes before and after the number. */
  function Before(name: string): string { if LastDot(name) > 0 then name[..LastDot(name)] + " (" else name + " (" }

  function After(name: string): string { if LastDot(name) > 0 then ")" + name[LastDot(name)..] else ")" }

  /** `_numbered` */
  function Numbered(name: string, number: nat): string { Before(name) + Decimal(number) + After(name) }

  lemma {:induction false} FoldedDigits(sys: System, s: string)
    requires Sound(sys) && forall i :: 0 <= i < |s| ==> IsDigit(s[i])
    ensures Map(sys.fold, s) == s
  {
    if s != "" {
      FoldedDigits(sys, s[..|s| - 1]);
      assert sys.fold(s[|s| - 1]) == [s[|s| - 1]];
    }
  }

  /** Different numbers give names that differ even when folded. */
  lemma NumberedInjective(sys: System, name: string, n: nat, m: nat)
    requires Sound(sys)
    requires Map(sys.fold, Numbered(name, n)) == Map(sys.fold, Numbered(name, m))
    ensures n == m
  {
    hide Sound, Map;
    var (b, a) := (Map(sys.fold, Before(name)), Map(sys.fold, After(name)));
    FoldedParts(sys, name, n);
    FoldedParts(sys, name, m);
    var (x, y) := (b + Decimal(n) + a, b + Decimal(m) + a);
    assert x[|b|..|x| - |a|] == Decimal(n) && y[|b|..|y| - |a|] == Decimal(m);
    DecimalInjective(n, m);
  }

  lemma FoldedParts(sys: System, name: string, n: nat)
    requires Sound(sys)
    ensures Map(sys.fold, Numbered(name, n)) == Map(sys.fold, Before(name)) + Decimal(n) + Map(sys.fold, After(name))
  {
    MapAppends(sys.fold, Before(name) + Decimal(n), After(name));
    MapAppends(sys.fold, Before(name), Decimal(n));
    FoldedDigits(sys, Decimal(n));
  }

  lemma {:induction false} BaseIs(name: string)
    ensures Base(name) <= name && forall i :: 0 <= i < |Base(name)| ==> name[i] != '.'
    ensures Base(name) == name || name[|Base(name)|] == '.'
  {
    if name != "" && name[0] != '.' { BaseIs(name[1..]); }
  }

  lemma {:induction false} BaseUnique(name: string, n: nat)
    requires n <= |name| && (forall i :: 0 <= i < n ==> name[i] != '.') && (n < |name| ==> name[n] == '.')
    ensures Base(name) == name[..n]
  {
    if n > 0 {
      assert name[1..][..n - 1] == name[..n][1..];
      BaseUnique(name[1..], n - 1);
    }
  }

  lemma ParenthesisFrees(sys: System, name: string)
    requires Sound(sys) && Base(name) != "" && Base(name)[|Base(name)| - 1] == ')'
    ensures !Reserved(sys, name)
  {
    var m := Map(sys.upper, Base(name));
    assert m[|m| - 1] == ')';
    assert forall d :: IsDevice(d) ==> d[|d| - 1] != ')';
  }

  /** The numbered variants of a safe name are safe. */
  lemma NumberedIsSafe(sys: System, name: string, n: nat)
    requires Sound(sys) && Safe(sys, name)
    ensures Safe(sys, Numbered(name, n))
  {
    hide Reserved;
    var (d, s) := (LastDot(name), Numbered(name, n));
    assert forall i :: 0 <= i < |s| ==> !IsSeparator(s[i]) && (sys.windows ==> !IsForbidden(s[i])) by {
      CharsOfNumbered(sys, name, n);
    }
    assert ')' in s && |s| > 2;
    if sys.windows {
      NumberedNotReserved(sys, name, n);
      assert !EndsLoose(s);
    }
  }

  lemma CharsOfNumbered(sys: System, name: string, n: nat)
    ensures forall i :: 0 <= i < |Numbered(name, n)| ==>
              var c := Numbered(name, n)[i];
              c in name || IsDigit(c) || c == ' ' || c == '(' || c == ')'
    ensures ')' in Numbered(name, n) && |Numbered(name, n)| > 2
    ensures EndsLoose(Numbered(name, n)) ==> EndsLoose(name)
  {
    assert ')' == After(name)[0];
  }

  /** Up to its first dot, a numbered name is what the name is, or ends with the number. */
  lemma NumberedBase(name: string, n: nat)
    ensures var base := Base(Numbered(name, n));
            base == "" || base == Base(name) || base[|base| - 1] == ')'
  {
    hide Base, Decimal;
    var (d, k, s) := (LastDot(name), |Base(name)|, Numbered(name, n));
    BaseIs(name);
    if d == 0 {
      BaseUnique(s, 0);
    } else if 0 <= k < d {
      assert s[..k] == name[..k] == Base(name) && s[k] == name[k];
      BaseUnique(s, k);
    } else {
      FrontHasNoDot(name, k);
      NumberEndsBase(name, if d < 0 then name else name[..d], n);
    }
  }

  lemma NumberEndsBase(name: string, front: string, n: nat)
    requires LastDot(name) != 0 && front == if LastDot(name) < 0 then name else name[..LastDot(name)]
    requires forall i :: 0 <= i < |front| ==> front[i] != '.'
    ensures var base := Base(Numbered(name, n)); base != "" && base[|base| - 1] == ')'
  {
    hide Base, Decimal, LastDot;
    var (d, s) := (LastDot(name), Numbered(name, n));
    var base := front + " (" + Decimal(n) + ")";
    assert s == base + if d < 0 then "" else name[d..];
    assert s[..|base|] == base;
    BaseUnique(s, |base|);
  }

  lemma FrontHasNoDot(name: string, k: nat)
    requires k <= |name| && (k < |name| ==> name[k] == '.') && forall i :: 0 <= i < k ==> name[i] != '.'
    requires LastDot(name) <= k
    ensures forall i :: 0 <= i < |name| && (LastDot(name) < 0 || i < LastDot(name)) ==> name[i] != '.'
  {
  }

  lemma NumberedNotReserved(sys: System, name: string, n: nat)
    requires Sound(sys) && !Reserved(sys, name)
    ensures !Reserved(sys, Numbered(name, n))
  {
    hide Base, Numbered, Sound;
    NumberedBase(name, n);
    var base := Base(Numbered(name, n));
    assert !IsDevice("");
    if base != "" && base != Base(name) {
      ParenthesisFrees(sys, Numbered(name, n));
    }
  }
}
