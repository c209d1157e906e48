/** What an accepted export path is worth, told of its text alone: where it leads when it is cut at the separators, and what
    becomes of a name made safe, character by character (sdk/api/export_paths.py). */
module PathText {
  import opened Basics
  import opened ExportPaths
  import opened Sorting
  import opened ExportPlan

  /** A path's text cut into components, at either separator. */
  function Cut(s: string): (c: seq<string>)
    ensures c != []
  {
    if s == "" then [""]
    else
      var (before, last) := (Cut(s[..|s| - 1]), s[|s| - 1]);
      if last == '/' || last == '\\' then before + [""]
      else before[..|before| - 1] + [before[|before| - 1] + [last]]
  }

  /** A component that names one thing below its folder: neither the folder nor the one above, and no NUL; and on Windows no
      device, drive or stream, and nothing Windows would drop or refuse. */
  predicate NamesOneThing(sys: System, s: string) {
    && s != "" && s != "." && s != ".." && '\0' !in s
    && (sys.windows ==>
          && (forall c :: c in s ==> c !in "<>:\"|?*" && c as int >= 32)
          && s[|s| - 1] != '.' && s[|s| - 1] != ' ' && !NamesDevice(sys, s))
  }

  /** Up to its first dot, upper-cased, the name is that of a device. */
  predicate NamesDevice(sys: System, s: string) {
    exists n :: 0 <= n <= |s| && '.' !in s[..n] && (n < |s| ==> s[n] == '.') && IsDeviceName(Map(sys.upper, s[..n]))
  }

  /** The device names of Windows. */
  predicate IsDeviceName(s: string) {
    s in ["CON", "PRN", "AUX", "NUL"] || (|s| == 4 && s[..3] in ["COM", "LPT"] && s[3] in "123456789")
  }

  // ------------------------------------------------------------------------------------------------------
  // Containment
  // ------------------------------------------------------------------------------------------------------

  predicate Uncut(s: string) { '/' !in s && '\\' !in s }

  lemma {:induction false} CutsAreUncut(s: string)
    ensures forall i :: 0 <= i < |Cut(s)| ==> Uncut(Cut(s)[i])
  {
    if s != "" { CutsAreUncut(s[..|s| - 1]); }
  }

  /** `c`, its last component extended by `b`. */
  function Extended(c: seq<string>, b: string): (r: seq<string>)
    requires c != []
    ensures r != []
  {
    c[..|c| - 1] + [c[|c| - 1] + b]
  }

  lemma ExtendedTwice(c: seq<string>, a: string, b: string)
    requires c != []
    ensures Extended(Extended(c, a), b) == Extended(c, a + b) && Extended(c, "") == c
  {
    var last := c[|c| - 1];
    assert last + a + b == last + (a + b) && last + "" == last;
  }

  lemma {:induction false} CutAppends(a: string, b: string)
    requires Uncut(b)
    ensures Cut(a + b) == Extended(Cut(a), b)
  {
    hide Cut, Extended, Uncut;
    if b == "" {
      ExtendedTwice(Cut(a), "", "");
      assert a + b == a;
    } else {
      var (front, last) := (b[..|b| - 1], b[|b| - 1]);
      UncutParts(b);
      CutAppends(a, front);
      CutOne(a + front, last);
      ExtendedTwice(Cut(a), front, [last]);
      Regrouped(a, front, last, b);
    }
  }

  lemma UncutParts(b: string)
    requires Uncut(b) && b != ""
    ensures Uncut(b[..|b| - 1]) && b[|b| - 1] != '/' && b[|b| - 1] != '\\'
  {
    assert b[|b| - 1] in b;
    assert forall x :: x in b[..|b| - 1] ==> x in b;
  }

  lemma Regrouped(a: string, front: string, last: char, b: string)
    requires b != "" && front == b[..|b| - 1] && last == b[|b| - 1]
    ensures a + front + [last] == a + b && front + [last] == b
  {
  }

  lemma CutOne(a: string, last: char)
    requires last != '/' && last != '\\'
    ensures Cut(a + [last]) == Extended(Cut(a), [last])
  {
    assert (a + [last])[..|a|] == a;
  }

  lemma CutAtSeparator(a: string, sep: char)
    requires sep == '/' || sep == '\\'
    ensures Cut(a + [sep]) == Cut(a) + [""]
  {
    assert (a + [sep])[..|a|] == a;
  }

  /** The components below the root, each behind a separator. */
  function Below(windows: bool, segments: seq<string>): string {
    if segments == [] then ""
    else Below(windows, segments[..|segments| - 1]) + (if windows then "\\" else "/") + segments[|segments| - 1]
  }

  lemma {:induction false} TextIsBelow(t: Target, path: Path)
    ensures Text(t, path) == t.root + Below(t.sys.windows, path)
  {
    if path != [] {
      TextIsBelow(t, path[..|path| - 1]);
      var sep := if t.sys.windows then "\\" else "/";
      assert t.root + (Below(t.sys.windows, path[..|path| - 1]) + sep + path[|path| - 1])
             == t.root + Below(t.sys.windows, path[..|path| - 1]) + sep + path[|path| - 1];
    }
  }

  lemma BelowMore(windows: bool, segments: seq<string>)
    requires segments != []
    ensures Below(windows, segments)
            == Below(windows, segments[..|segments| - 1]) + [if windows then '\\' else '/'] + segments[|segments| - 1]
  {
  }

  lemma {:induction false} BelowCuts(windows: bool, segments: seq<string>)
    requires forall i :: 0 <= i < |segments| ==> Uncut(segments[i])
    ensures Cut(Below(windows, segments)) == [""] + segments
  {
    if segments == [] {
      assert [""] + segments == [""];
    } else {
      BelowMore(windows, segments);
      hide Cut, Below, Uncut;
      var n := |segments| - 1;
      var (front, last) := (segments[..n], segments[n]);
      BelowCuts(windows, front);
      CutBehindSeparator(Below(windows, front), if windows then '\\' else '/', last);
      OneMore([""], front, last, segments);
    }
  }

  lemma OneMore(first: seq<string>, front: seq<string>, last: string, all: seq<string>)
    requires all != [] && front == all[..|all| - 1] && last == all[|all| - 1]
    ensures first + front + [last] == first + all
  {
    assert all == front + [last];
  }

  lemma ExtendedEmpty(c: seq<string>, b: string)
    ensures Extended(c + [""], b) == c + [b]
  {
    assert (c + [""])[..|c|] == c && "" + b == b;
  }

  lemma CutBehindSeparator(above: string, sep: char, last: string)
    requires (sep == '/' || sep == '\\') && Uncut(last)
    ensures Cut(above + [sep] + last) == Cut(above) + [last]
  {
    hide Cut, Uncut, Extended;
    CutAtSeparator(above, sep);
    CutAppends(above + [sep], last);
    ExtendedEmpty(Cut(above), last);
  }

  lemma SafeIs(sys: System, s: string)
    ensures Safe(sys, s) <==> Uncut(s) && NamesOneThing(sys, s)
  {
    if s != "" {
      BaseIs(s);
      DeviceIs(sys, s);
      DevicesAre(Map(sys.upper, Base(s)));
      hide Reserved, NamesDevice, IsDevice, Map, Base;
      assert (forall i :: 0 <= i < |s| ==> !IsForbidden(s[i]))
             <==> forall c :: c in s ==> c !in "<>:\"|?*" && c as int >= 32 by { NoneForbidden(s); }
    }
  }

  lemma NoneForbidden(s: string)
    ensures (forall i :: 0 <= i < |s| ==> !IsForbidden(s[i]))
            <==> forall c :: c in s ==> c !in "<>:\"|?*" && c as int >= 32
  {
    assert "<>:\"|?*" == ['<', '>', ':', '"', '|', '?', '*'];
    assert forall c :: c in s ==> (IsForbidden(c) <==> c in "<>:\"|?*" || (c as int) < 32);
    assert forall i :: 0 <= i < |s| ==> s[i] in s;
  }

  lemma DeviceIs(sys: System, s: string)
    ensures NamesDevice(sys, s) <==> IsDeviceName(Map(sys.upper, Base(s)))
  {
    hide Map;
    BaseIs(s);
    assert s[..|Base(s)|] == Base(s);
    forall n | 0 <= n <= |s| && '.' !in s[..n] && (n < |s| ==> s[n] == '.') ensures s[..n] == Base(s) {
      assert forall i :: 0 <= i < n ==> s[i] in s[..n];
      BaseUnique(s, n);
    }
  }

  lemma DevicesAre(s: string)
    ensures IsDevice(s) <==> IsDeviceName(s)
  {
    assert "123456789" == ['1', '2', '3', '4', '5', '6', '7', '8', '9'];
  }

  /** A path is accepted exactly if the text below the output directory, cut at both separators, is its segments and each
      names one thing in its folder: it cannot leave the output directory, and reaches what its names say. */
  lemma AcceptedIsContained(t: Target, segments: seq<string>)
    ensures t.root <= Text(t, segments)
    ensures AllSafe(t.sys, segments)
            <==> Cut(Text(t, segments)[|t.root|..]) == [""] + segments
                 && forall i :: 0 <= i < |segments| ==> NamesOneThing(t.sys, segments[i])
  {
    hide Safe, NamesOneThing, Cut, Text, Below, Uncut;
    TextIsBelow(t, segments);
    var below := Below(t.sys.windows, segments);
    assert Text(t, segments)[|t.root|..] == below;
    forall i | 0 <= i < |segments|
      ensures Safe(t.sys, segments[i]) <==> Uncut(segments[i]) && NamesOneThing(t.sys, segments[i])
    {
      SafeIs(t.sys, segments[i]);
    }
    CutsBack(t.sys.windows, segments);
  }

  lemma CutsBack(windows: bool, segments: seq<string>)
    ensures Cut(Below(windows, segments)) == [""] + segments <==> forall i :: 0 <= i < |segments| ==> Uncut(segments[i])
  {
    hide Uncut, Below, Cut;
    var below := Below(windows, segments);
    if forall i :: 0 <= i < |segments| ==> Uncut(segments[i]) {
      BelowCuts(windows, segments);
    } else if Cut(below) == [""] + segments {
      CutsAreUncut(below);
      forall i | 0 <= i < |segments| ensures Uncut(segments[i]) { assert ([""] + segments)[i + 1] == segments[i]; }
    }
  }

  /** So does every planned item, with its text below the output directory. */
  lemma PlannedIsContained(t: Target, folder: ExportPlan.Node, i: nat)
    requires Sound(t.sys) && i < |PlanTree(t, folder).items|
    ensures var path := PlanTree(t, folder).items[i].path;
            && path != [] && t.root <= Text(t, path)
            && Cut(Text(t, path)[|t.root|..]) == [""] + path
            && forall k :: 0 <= k < |path| ==> NamesOneThing(t.sys, path[k])
  {
    hide PlanTree, Text, Cut, NamesOneThing, AllSafe, Sound;
    PlanIsDisjoint(t, folder);
    AcceptedIsContained(t, PlanTree(t, folder).items[i].path);
  }

  // ------------------------------------------------------------------------------------------------------
  // The names made safe
  // ------------------------------------------------------------------------------------------------------

  /** A character that is replaced: a separator, NUL, or one that Windows refuses. */
  predicate IsReplaced(windows: bool, c: char) {
    c == '/' || c == '\\' || c == '\0' || (windows && (c in "<>:\"|?*" || (c as int) < 32))
  }

  /** What `w` is without its trailing dots and spaces. */
  predicate StripsTo(w: string, k: nat) {
    && k <= |w| && (k > 0 ==> w[k - 1] != '.' && w[k - 1] != ' ')
    && forall i :: k <= i < |w| ==> w[i] == '.' || w[i] == ' '
  }

  lemma CleanIs(sys: System, c: char)
    ensures Clean(sys, c) == if IsReplaced(sys.windows, c) then '_' else c
  {
    assert "<>:\"|?*" == ['<', '>', ':', '"', '|', '?', '*'];
  }

  lemma {:induction false} StrippedIs(s: string)
    ensures |Stripped(s)| <= |s| && s[..|Stripped(s)|] == Stripped(s) && StripsTo(s, |Stripped(s)|)
    decreases |s|
  {
    if EndsLoose(s) {
      StrippedIs(s[..|s| - 1]);
      assert s[..|s| - 1][..|Stripped(s)|] == s[..|Stripped(s)|];
    } else {
      assert s[..|s|] == s;
    }
  }

  /** What becomes of a name: each character is kept or replaced by an underscore where it stands; on Windows its trailing
      dots and spaces go, and a device's name gets an underscore in front; and nothing, `.` and `..` become `_`. */
  lemma MadeSafe(sys: System, name: string)
    ensures var w := seq(|name|, i requires 0 <= i < |name| => if IsReplaced(sys.windows, name[i]) then '_' else name[i]);
            if !sys.windows then FileName(sys, name) == if w in ["", ".", ".."] then "_" else w
            else
              exists k: nat :: StripsTo(w, k)
                          && FileName(sys, name) == if k == 0 then "_"
                                                    else if NamesDevice(sys, w[..k]) then "_" + w[..k] else w[..k]
  {
    var w := seq(|name|, i requires 0 <= i < |name| => if IsReplaced(sys.windows, name[i]) then '_' else name[i]);
    assert w == seq(|name|, i requires 0 <= i < |name| => Clean(sys, name[i])) by {
      forall i | 0 <= i < |name| ensures Clean(sys, name[i]) == w[i] { CleanIs(sys, name[i]); }
    }
    if sys.windows {
      StrippedIs(w);
      var stripped := Stripped(w);
      assert StripsTo(w, |stripped|) && w[..|stripped|] == stripped;
      DeviceIs(sys, stripped);
      DevicesAre(Map(sys.upper, Base(stripped)));
      NoDeviceIsEmpty(sys);
      hide NamesDevice, IsDevice, IsDeviceName, Map, Base, Stripped;
      if stripped != "" {
        assert stripped[|stripped| - 1] != '.';
        assert ("_" + stripped)[0] == '_';
      }
    }
  }

  lemma NoDeviceIsEmpty(sys: System)
    ensures !Reserved(sys, "")
  {
    assert Map(sys.upper, "") == "";
  }

  /** The number goes before the extension, if there is one behind a stem, and else at the end. */
  lemma NumberedIs(name: string, stem: string, extension: string, n: nat)
    requires '.' !in extension && stem != ""
    ensures name == stem + "." + extension ==> Numbered(name, n) == stem + " (" + Decimal(n) + ")." + extension
    ensures '.' !in name[if name == "" then 0 else 1..] ==> Numbered(name, n) == name + " (" + Decimal(n) + ")"
  {
    hide Decimal;
    if name == stem + "." + extension {
      assert name[|stem|] == '.';
      assert forall i :: |stem| < i < |name| ==> name[i] in extension by {
        assert forall i :: |stem| < i < |name| ==> name[i] == extension[i - |stem| - 1];
      }
      assert LastDot(name) == |stem|;
      assert name[..|stem|] == stem && name[|stem|..] == "." + extension;
      assert ")" + ("." + extension) == ")." + extension;
      assert stem + " (" + Decimal(n) + (")." + extension) == stem + " (" + Decimal(n) + ")." + extension;
    }
    if '.' !in name[if name == "" then 0 else 1..] {
      assert forall i :: 1 <= i < |name| ==> name[i] in name[1..];
      assert LastDot(name) <= 0;
    }
  }

  /** The number that decimal digits stand for. */
  function Value(s: string): nat {
    if s == "" then 0 else 10 * Value(s[..|s| - 1]) + if IsDigit(s[|s| - 1]) then s[|s| - 1] as nat - '0' as nat else 0
  }

  /** `str(n)`: the digits stand for `n`, and the first is zero only if `n` is. */
  lemma {:induction false} DecimalIs(n: nat)
    ensures Value(Decimal(n)) == n && (Decimal(n)[0] == '0' ==> n == 0)
  {
    var (front, last) := (if n < 10 then "" else Decimal(n / 10), '0' + (n % 10) as char);
    assert Decimal(n) == front + [last];
    assert Decimal(n)[..|front|] == front;
    if n >= 10 { DecimalIs(n / 10); }
  }
}
