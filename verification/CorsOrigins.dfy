/** `Settings.cors_origin_list`: split at commas, strip white space, drop what is empty. */
module CorsOrigins {
  import opened Prelude
  import opened Strings

  /** The characters `str.strip()` removes: Unicode white space as Python's `isspace` has it. */
  predicate IsSpace(c: char) {
    var n := c as int;
    9 <= n <= 13 || 28 <= n <= 32 || n == 0x85 || n == 0xA0 || n == 0x1680 || 0x2000 <= n <= 0x200A
    || n == 0x2028 || n == 0x2029 || n == 0x202F || n == 0x205F || n == 0x3000
  }

  /** The same characters, one by one. */
  const WHITE_SPACE: string :=
    "\t\n\U{0B}\U{0C}\r\U{1C}\U{1D}\U{1E}\U{1F} \U{85}\U{A0}\U{1680}"
    + "\U{2000}\U{2001}\U{2002}\U{2003}\U{2004}\U{2005}\U{2006}\U{2007}\U{2008}\U{2009}\U{200A}"
    + "\U{2028}\U{2029}\U{202F}\U{205F}\U{3000}"

  /** Blank and tab are white space; no visible ASCII character is, so no letter, digit, colon, slash
      or point; and there are 29 such characters in all. */
  lemma SpaceCharacters(c: char)
    ensures IsSpace(' ') && IsSpace('\t') && IsSpace('\n') && IsSpace('\r')
    ensures '!' <= c <= '~' ==> !IsSpace(c)
    ensures |WHITE_SPACE| == 29 && (IsSpace(c) <==> c in WHITE_SPACE)
  {
    if IsSpace(c) {
      var n := c as int;
      var i := if n <= 13 then n - 9 else if n <= 32 then n - 23 else if n == 0x85 then 10 else if n == 0xA0 then 11
               else if n == 0x1680 then 12 else if n <= 0x200A then n - 0x2000 + 13 else if n == 0x2028 then 24
               else if n == 0x2029 then 25 else if n == 0x202F then 26 else if n == 0x205F then 27 else 28;
      assert WHITE_SPACE[i] == c;
    }
  }

  function StripLeft(s: string): string {
    if s != "" && IsSpace(s[0]) then StripLeft(s[1..]) else s
  }

  function StripRight(s: string): string {
    if s != "" && IsSpace(s[|s| - 1]) then StripRight(s[..|s| - 1]) else s
  }

  function Strip(s: string): string {
    StripRight(StripLeft(s))
  }

  /** The comprehension over the parts. */
  function NonBlank(parts: seq<string>): seq<string> {
    if parts == [] then []
    else (if Strip(parts[0]) != "" then [Strip(parts[0])] else []) + NonBlank(parts[1..])
  }

  function OriginList(origins: string): seq<string> {
    NonBlank(Split(origins, ','))
  }

  ghost predicate AllSpace(s: string) {
    forall i | 0 <= i < |s| :: IsSpace(s[i])
  }

  ghost predicate Trimmed(s: string) {
    s == "" || (!IsSpace(s[0]) && !IsSpace(s[|s| - 1]))
  }

  /** An origin as the list holds it. */
  ghost predicate CleanOrigin(s: string) {
    s != "" && Trimmed(s) && Free(s, ',')
  }

  lemma {:induction false} StripLeftCuts(s: string) returns (k: nat)
    ensures k <= |s| && StripLeft(s) == s[k..] && AllSpace(s[..k])
    ensures StripLeft(s) != "" ==> !IsSpace(StripLeft(s)[0])
  {
    if s != "" && IsSpace(s[0]) {
      k := StripLeftCuts(s[1..]);
      k := k + 1;
      assert forall i | 1 <= i < k :: s[i] == s[1..][..k - 1][i - 1];
    } else {
      k := 0;
    }
  }

  lemma {:induction false} StripRightCuts(s: string) returns (k: nat)
    ensures k <= |s| && StripRight(s) == s[..k] && AllSpace(s[k..])
    ensures StripRight(s) != "" ==> !IsSpace(StripRight(s)[|StripRight(s)| - 1])
  {
    if s != "" && IsSpace(s[|s| - 1]) {
      k := StripRightCuts(s[..|s| - 1]);
      assert forall i | k <= i < |s| - 1 :: s[i] == s[..|s| - 1][k..][i - k];
    } else {
      k := |s|;
    }
  }

  /** Stripping removes white space at both ends and only there. */
  lemma StripCuts(s: string) returns (a: nat, b: nat)
    ensures a <= b <= |s| && Strip(s) == s[a..b] && AllSpace(s[..a]) && AllSpace(s[b..]) && Trimmed(Strip(s))
  {
    a := StripLeftCuts(s);
    var t := StripLeft(s);
    var k := StripRightCuts(t);
    b := a + k;
    assert s[b..] == t[k..];
  }

  lemma StripTrimmed(s: string)
    requires Trimmed(s)
    ensures Strip(s) == s
  {
  }

  /** Every listed origin is non-empty, trimmed and free of commas, whatever the setting. */
  lemma {:induction false} OriginsClean(parts: seq<string>)
    requires AllFree(parts, ',')
    ensures forall i | 0 <= i < |NonBlank(parts)| :: CleanOrigin(NonBlank(parts)[i])
  {
    if parts != [] {
      OriginsClean(parts[1..]);
      var a, b := StripCuts(parts[0]);
      assert forall i | 0 <= i < b - a :: parts[0][a..b][i] == parts[0][a + i];
      hide Strip, CleanOrigin;
      if Strip(parts[0]) != "" {
        CleanFrom(Strip(parts[0]));
      }
    }
  }

  lemma CleanFrom(s: string)
    requires s != "" && Trimmed(s) && Free(s, ',')
    ensures CleanOrigin(s)
  {
  }

  lemma {:induction false} NonBlankClean(parts: seq<string>)
    requires forall i | 0 <= i < |parts| :: CleanOrigin(parts[i])
    ensures NonBlank(parts) == parts
  {
    if parts != [] {
      NonBlankClean(parts[1..]);
      StripTrimmed(parts[0]);
      assert [parts[0]] + parts[1..] == parts;
    }
  }

  /** Parsing the comma-join of any list of clean origins gives the list back. */
  lemma OriginRoundTrip(list: seq<string>)
    requires forall i | 0 <= i < |list| :: CleanOrigin(list[i])
    ensures OriginList(Join(",", list)) == list
  {
    if list == [] {
      assert Split("", ',')[1..] == [];
      assert NonBlank([""][1..]) == [];
    } else {
      SplitJoin(list, ',');
      NonBlankClean(list);
    }
  }

  /** Normalising is idempotent: for every string, parse after join after parse is parse. */
  lemma OriginsNormalised(origins: string)
    ensures forall i | 0 <= i < |OriginList(origins)| :: CleanOrigin(OriginList(origins)[i])
    ensures OriginList(Join(",", OriginList(origins))) == OriginList(origins)
  {
    JoinSplit(origins, ',');
    OriginsClean(Split(origins, ','));
    OriginRoundTrip(OriginList(origins));
  }

  lemma {:induction false} NonBlankAppend(a: seq<string>, b: seq<string>)
    ensures NonBlank(a + b) == NonBlank(a) + NonBlank(b)
  {
    hide Strip;
    if a == [] {
      assert a + b == b;
    } else {
      assert (a + b)[1..] == a[1..] + b;
      NonBlankAppend(a[1..], b);
    }
  }

  lemma {:induction false} SplitAppend(a: string, b: string)
    ensures Split(a + "," + b, ',') == Split(a, ',') + Split(b, ',')
  {
    var s := a + "," + b;
    if a == "" {
      assert s[1..] == b;
    } else {
      assert s[1..] == a[1..] + "," + b;
      SplitAppend(a[1..], b);
    }
  }

  lemma {:induction false} StripLeftBlank(u: string, s: string)
    requires AllSpace(u)
    ensures StripLeft(u + s) == StripLeft(s)
  {
    if u == "" {
      assert u + s == s;
    } else {
      assert (u + s)[1..] == u[1..] + s;
      StripLeftBlank(u[1..], s);
    }
  }

  lemma {:induction false} StripRightBlank(s: string, v: string)
    requires AllSpace(v)
    ensures StripRight(s + v) == StripRight(s)
  {
    if v == "" {
      assert s + v == s;
    } else {
      var n := |v| - 1;
      assert (s + v)[..|s + v| - 1] == s + v[..n];
      StripRightBlank(s, v[..n]);
    }
  }

  lemma SpaceIsNoComma(u: string)
    requires AllSpace(u)
    ensures Free(u, ',')
  {
  }

  /** A setting that is one origin in white space lists that origin. */
  lemma PaddedOrigin(u: string, o: string, v: string)
    requires AllSpace(u) && AllSpace(v) && CleanOrigin(o)
    ensures OriginList(u + o + v) == [o]
  {
    var s := u + o + v;
    SpaceIsNoComma(u);
    SpaceIsNoComma(v);
    SplitWhole(s, ',');
    assert s == u + (o + v);
    StripLeftBlank(u, o + v);
    assert StripLeft(o + v) == o + v;
    StripRightBlank(o, v);
    StripTrimmed(o);
    assert Split(s, ',') == [s] && [s][1..] == [];
    assert NonBlank([]) == [];
  }

  /** A setting of white space alone lists nothing. */
  lemma BlankSetting(u: string)
    requires AllSpace(u)
    ensures OriginList(u) == []
  {
    SpaceIsNoComma(u);
    SplitWhole(u, ',');
    StripLeftBlank(u, "");
    assert u + "" == u;
    assert Split(u, ',') == [u] && [u][1..] == [];
    assert NonBlank([]) == [];
  }

  /** One entry of a setting: white space, an origin or nothing, white space. */
  datatype Entry = Entry(left: string, origin: Option<string>, right: string)

  function EntryText(e: Entry): string {
    e.left + (if e.origin.Some? then e.origin.value else "") + e.right
  }

  function Entered(entries: seq<Entry>): seq<string> {
    if entries == [] then []
    else (if entries[0].origin.Some? then [entries[0].origin.value] else []) + Entered(entries[1..])
  }

  function Setting(entries: seq<Entry>): string
    requires entries != []
  {
    if |entries| == 1 then EntryText(entries[0]) else EntryText(entries[0]) + "," + Setting(entries[1..])
  }

  ghost predicate ProperEntry(e: Entry) {
    AllSpace(e.left) && AllSpace(e.right) && (e.origin.Some? ==> CleanOrigin(e.origin.value))
  }

  /** Every setting written with white space wherever one likes, and with empty entries, lists its
      origins in order. */
  lemma {:induction false} OriginsExactly(entries: seq<Entry>)
    requires entries != [] && forall i | 0 <= i < |entries| :: ProperEntry(entries[i])
    ensures OriginList(Setting(entries)) == Entered(entries)
  {
    hide OriginList;
    var e := entries[0];
    if e.origin.Some? {
      PaddedOrigin(e.left, e.origin.value, e.right);
    } else {
      assert EntryText(e) == e.left + e.right;
      BlankSetting(EntryText(e));
    }
    if |entries| > 1 {
      OriginsExactly(entries[1..]);
      OriginsOfBoth(EntryText(e), Setting(entries[1..]));
    } else {
      assert Entered(entries[1..]) == [];
    }
  }

  lemma EntryOf(part: string) returns (e: Entry)
    requires Free(part, ',')
    ensures ProperEntry(e) && EntryText(e) == part
  {
    var a, b := StripCuts(part);
    assert part == part[..a] + part[a..b] + part[b..];
    assert forall i | 0 <= i < b - a :: part[a..b][i] == part[a + i];
    if a == b {
      e := Entry(part[..a], None, part[b..]);
    } else {
      e := Entry(part[..a], Some(part[a..b]), part[b..]);
    }
  }

  lemma {:induction false} EntriesOf(parts: seq<string>) returns (entries: seq<Entry>)
    requires parts != [] && AllFree(parts, ',')
    ensures |entries| == |parts| && forall i | 0 <= i < |entries| :: ProperEntry(entries[i])
    ensures Setting(entries) == Join(",", parts)
  {
    hide ProperEntry, EntryText;
    var e := EntryOf(parts[0]);
    if |parts| == 1 {
      entries := [e];
    } else {
      var rest := EntriesOf(parts[1..]);
      entries := [e] + rest;
      assert entries[1..] == rest;
    }
  }

  /** Every string is such a setting, so that statement fixes the list for all of them. */
  lemma EverySetting(origins: string) returns (entries: seq<Entry>)
    ensures entries != [] && (forall i | 0 <= i < |entries| :: ProperEntry(entries[i]))
    ensures Setting(entries) == origins && OriginList(origins) == Entered(entries)
  {
    hide ProperEntry, OriginList;
    JoinSplit(origins, ',');
    entries := EntriesOf(Split(origins, ','));
    OriginsExactly(entries);
  }

  /** Settings glued together with a comma list the origins of both. */
  lemma OriginsOfBoth(a: string, b: string)
    ensures OriginList(a + "," + b) == OriginList(a) + OriginList(b)
  {
    SplitAppend(a, b);
    NonBlankAppend(Split(a, ','), Split(b, ','));
  }
}
