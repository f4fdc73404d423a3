/**
 * The string handling of the `schedule` handler: `str.split(",")` for the
 * doctor and holiday lists, `str.strip()` for the holiday field, the holiday
 * list comprehension over `parse_date`, and the `str.replace` calls that
 * build the schedule name.
 */
module Fields {
  import opened Wrappers
  import opened Errors
  import opened Calendar

  /** `str.split(sep)` with an explicit separator: empty fields are kept, and "" gives [""]. */
  function Split(s: string, sep: char): (parts: seq<string>)
    ensures |parts| >= 1
    ensures forall i :: 0 <= i < |parts| ==> sep !in parts[i]
    decreases |s|
  {
    if s == [] then [[]]
    else
      var rest := Split(s[1..], sep);
      if s[0] == sep then [[]] + rest
      else [[s[0]] + rest[0]] + rest[1..]
  }

  /** `sep.join(parts)`. */
  function Join(parts: seq<string>, sep: char): string
    requires |parts| >= 1
  {
    if |parts| == 1 then parts[0] else parts[0] + [sep] + Join(parts[1..], sep)
  }

  /** Splitting loses nothing: joining the fields back gives the input. */
  lemma {:induction false} JoinSplit(s: string, sep: char)
    ensures Join(Split(s, sep), sep) == s
    decreases |s|
  {
    if s != [] {
      JoinSplit(s[1..], sep);
      var rest := Split(s[1..], sep);
      if s[0] == sep {
        assert Split(s, sep)[1..] == rest;
      } else if |rest| == 1 {
        assert s == [s[0]] + s[1..];
      } else {
        assert Split(s, sep)[1..] == rest[1..];
        assert s == [s[0]] + s[1..];
      }
    }
  }

  lemma {:induction false} SplitPrefix(p: string, t: string, sep: char)
    requires sep !in p
    ensures Split(p + t, sep) == [p + Split(t, sep)[0]] + Split(t, sep)[1..]
    decreases |p|
  {
    if p != [] {
      SplitPrefix(p[1..], t, sep);
      assert (p + t)[0] == p[0] != sep;
      assert (p + t)[1..] == p[1..] + t;
      var x := Split(t, sep);
      var rest := Split(p[1..] + t, sep);
      assert rest[0] == p[1..] + x[0] && rest[1..] == x[1..];
      assert [p[0]] + (p[1..] + x[0]) == p + x[0];
    } else {
      assert p + t == t;
      assert Split(t, sep) == [Split(t, sep)[0]] + Split(t, sep)[1..];
      assert [] + Split(t, sep)[0] == Split(t, sep)[0];
    }
  }

  /** Fields free of the separator come back unchanged from a join and a split. */
  lemma {:induction false} SplitJoin(parts: seq<string>, sep: char)
    requires |parts| >= 1
    requires forall i :: 0 <= i < |parts| ==> sep !in parts[i]
    ensures Split(Join(parts, sep), sep) == parts
  {
    if |parts| == 1 {
      SplitPrefix(parts[0], [], sep);
      assert parts[0] + [] == parts[0];
      assert Split([], sep) == [[]];
    } else {
      var tail := Join(parts[1..], sep);
      SplitJoin(parts[1..], sep);
      SplitPrefix(parts[0], [sep] + tail, sep);
      assert Join(parts, sep) == parts[0] + ([sep] + tail);
      assert ([sep] + tail)[0] == sep && ([sep] + tail)[1..] == tail;
      var y := Split([sep] + tail, sep);
      assert y == [[]] + Split(tail, sep);
      assert y[0] == [] && y[1..] == parts[1..];
      assert parts[0] + [] == parts[0];
      assert parts == [parts[0]] + parts[1..];
    }
  }

  /** The characters `str.isspace()` accepts. */
  const Whitespace: set<char> :=
    {
      '\U{9}', '\U{A}', '\U{B}', '\U{C}', '\U{D}', '\U{1C}', '\U{1D}', '\U{1E}',
      '\U{1F}', '\U{20}', '\U{85}', '\U{A0}', '\U{1680}', '\U{2000}', '\U{2001}', '\U{2002}',
      '\U{2003}', '\U{2004}', '\U{2005}', '\U{2006}', '\U{2007}', '\U{2008}', '\U{2009}', '\U{200A}',
      '\U{2028}', '\U{2029}', '\U{202F}', '\U{205F}', '\U{3000}'
    }

  predicate IsSpace(c: char) {
    c in Whitespace
  }

  /** Every character of the text is whitespace. */
  predicate AllSpace(t: string) {
    forall k :: 0 <= k < |t| ==> IsSpace(t[k])
  }

  /** The first index at or after `i` that holds no whitespace, or `|s|`. */
  function LeadEnd(s: string, i: nat): (j: nat)
    requires i <= |s|
    ensures i <= j <= |s|
    ensures forall k :: i <= k < j ==> IsSpace(s[k])
    ensures j == |s| || !IsSpace(s[j])
    decreases |s| - i
  {
    if i < |s| && IsSpace(s[i]) then LeadEnd(s, i + 1) else i
  }

  /** The index just past the last character before `j`, and not before `i`, that is not whitespace. */
  function TrailStart(s: string, i: nat, j: nat): (k: nat)
    requires i <= j <= |s|
    ensures i <= k <= j
    ensures forall m :: k <= m < j ==> IsSpace(s[m])
    ensures k == i || !IsSpace(s[k - 1])
  {
    if j > i && IsSpace(s[j - 1]) then TrailStart(s, i, j - 1) else j
  }

  /** `str.strip()`: the input without its leading and trailing whitespace. */
  function Strip(s: string): (r: string)
    ensures exists i, j :: 0 <= i <= j <= |s| && r == s[i..j] && AllSpace(s[..i]) && AllSpace(s[j..])
    ensures r == [] || (!IsSpace(r[0]) && !IsSpace(r[|r| - 1]))
  {
    var i := LeadEnd(s, 0);
    var j := TrailStart(s, i, |s|);
    assert AllSpace(s[..i]) by {
      forall k | 0 <= k < i
        ensures IsSpace(s[..i][k])
      {
        assert s[..i][k] == s[k];
      }
    }
    assert AllSpace(s[j..]) by {
      forall k | 0 <= k < |s| - j
        ensures IsSpace(s[j..][k])
      {
        assert s[j..][k] == s[j + k];
      }
    }
    s[i..j]
  }

  /** The holiday field counts as empty exactly when it is all whitespace. */
  lemma StripEmpty(s: string)
    ensures Strip(s) == [] <==> AllSpace(s)
  {
    var i := LeadEnd(s, 0);
    var j := TrailStart(s, i, |s|);
    assert |Strip(s)| == j - i;
    if j == i {
      assert i == |s|;
    }
  }

  /** `[parse_date(day) for day in parts]`: the first field that is not a date raises. */
  function ParseAll(parts: seq<string>): (r: Result<seq<Date>, Fault>)
    ensures r.Ok? <==> forall i :: 0 <= i < |parts| ==> ParseDate(parts[i]).Some?
    ensures r.Ok? ==>
              && |r.value| == |parts|
              && forall i :: 0 <= i < |parts| ==> r.value[i] == ParseDate(parts[i]).value
    ensures r.Err? ==>
              exists i :: && 0 <= i < |parts| && r.error == BadDate(parts[i]) && ParseDate(parts[i]).None?
                          && forall j :: 0 <= j < i ==> ParseDate(parts[j]).Some?
  {
    if parts == [] then Ok([])
    else
      match ParseDate(parts[0])
      case None => Err(BadDate(parts[0]))
      case Some(d) =>
        match ParseAll(parts[1..])
        case Err(e) => Err(e)
        case Ok(ds) => Ok([d] + ds)
  }

  /** The holiday field: stripped, empty means no holidays, otherwise comma-separated dates. */
  function ParseHolidays(text: string): (r: Result<seq<Date>, Fault>)
    ensures AllSpace(text) ==> r == Ok([])
    ensures !AllSpace(text) ==> r == ParseAll(Split(Strip(text), ','))
    ensures !AllSpace(text) && r.Ok? ==> |r.value| == |Split(Strip(text), ',')| >= 1
    ensures r.Err? <==>
              !AllSpace(text) && exists i :: 0 <= i < |Split(Strip(text), ',')| && ParseDate(Split(Strip(text), ',')[i]).None?
    ensures r.Ok? ==> forall i :: 0 <= i < |r.value| ==> Valid(r.value[i])
    ensures r.Err? ==> r.error.BadDate?
  {
    var t := Strip(text);
    StripEmpty(text);
    if t == [] then Ok([]) else ParseAll(Split(t, ','))
  }

  /** `str.replace(c, "")`. */
  function RemoveChar(s: string, c: char): (r: string)
    ensures c !in r
  {
    if s == [] then []
    else if s[0] == c then RemoveChar(s[1..], c)
    else [s[0]] + RemoveChar(s[1..], c)
  }

  /** Removal drops every occurrence of `c` and keeps every other character, as often as it occurs. */
  lemma {:induction false} RemoveCharKeeps(s: string, c: char)
    ensures multiset(RemoveChar(s, c)) == multiset(s)[c := 0]
  {
    if s != [] {
      RemoveCharKeeps(s[1..], c);
      assert s == [s[0]] + s[1..];
    }
  }

  lemma {:induction false} RemoveCharConcat(a: string, b: string, c: char)
    ensures RemoveChar(a + b, c) == RemoveChar(a, c) + RemoveChar(b, c)
  {
    if a != [] {
      RemoveCharConcat(a[1..], b, c);
      assert (a + b)[1..] == a[1..] + b;
    } else {
      assert a + b == b;
    }
  }

  lemma {:induction false} RemoveCharAbsent(s: string, c: char)
    requires c !in s
    ensures RemoveChar(s, c) == s
  {
    if s != [] {
      RemoveCharAbsent(s[1..], c);
      assert s == [s[0]] + s[1..];
    }
  }

  /** `"Schedule " + str(uuid)` with every space and hyphen removed. */
  function ScheduleName(uuid: string): (name: string)
    ensures ' ' !in name && '-' !in name
  {
    var noSpace := RemoveChar("Schedule " + uuid, ' ');
    RemoveCharKeeps(noSpace, '-');
    assert multiset(RemoveChar(noSpace, '-'))[' '] == multiset(noSpace)[' '] == 0;
    RemoveChar(RemoveChar("Schedule " + uuid, ' '), '-')
  }

  predicate IsHexDigit(c: char) {
    '0' <= c <= '9' || 'a' <= c <= 'f'
  }

  predicate AllHex(g: string) {
    forall i :: 0 <= i < |g| ==> IsHexDigit(g[i])
  }

  /** The canonical text of a UUID: 8-4-4-4-12 lower-case hex digits joined by hyphens. */
  predicate IsUuidText(u: string) {
    && |u| == 36 && u[8] == '-' && u[13] == '-' && u[18] == '-' && u[23] == '-'
    && AllHex(u[..8]) && AllHex(u[9..13]) && AllHex(u[14..18]) && AllHex(u[19..23]) && AllHex(u[24..])
  }

  lemma HexHasNoSeparator(g: string)
    requires AllHex(g)
    ensures ' ' !in g && '-' !in g
  {
  }

  lemma {:induction false} RemoveAtHyphen(g: string, t: string)
    requires '-' !in g
    ensures RemoveChar(g + "-" + t, '-') == g + RemoveChar(t, '-')
  {
    RemoveCharConcat(g, "-" + t, '-');
    assert g + "-" + t == g + ("-" + t);
    RemoveCharConcat("-", t, '-');
    RemoveCharAbsent(g, '-');
  }

  lemma {:induction false} HyphenStep(u: string, a: int, b: int)
    requires 0 <= a <= b < |u| && u[b] == '-' && AllHex(u[a..b])
    ensures RemoveChar(u[a..], '-') == u[a..b] + RemoveChar(u[b + 1..], '-')
  {
    HexHasNoSeparator(u[a..b]);
    assert u[a..] == u[a..b] + "-" + u[b + 1..];
    RemoveAtHyphen(u[a..b], u[b + 1..]);
  }

  lemma UuidDigits(u: string)
    requires IsUuidText(u)
    ensures RemoveChar(u, '-') == u[..8] + u[9..13] + u[14..18] + u[19..23] + u[24..]
  {
    HexHasNoSeparator(u[24..]);
    RemoveCharAbsent(u[24..], '-');
    HyphenStep(u, 19, 23);
    HyphenStep(u, 14, 18);
    HyphenStep(u, 9, 13);
    assert u[0..8] == u[..8];
    HyphenStep(u, 0, 8);
    assert u[0..] == u;
  }

  lemma UuidHasNoSpace(u: string)
    requires IsUuidText(u)
    ensures ' ' !in u
  {
    HexHasNoSeparator(u[..8]);
    HexHasNoSeparator(u[9..13]);
    HexHasNoSeparator(u[14..18]);
    HexHasNoSeparator(u[19..23]);
    HexHasNoSeparator(u[24..]);
    assert u == u[..8] + "-" + u[9..13] + "-" + u[14..18] + "-" + u[19..23] + "-" + u[24..];
  }

  lemma DropSpaceThenHyphens(p: string, u: string)
    requires ' ' !in p && '-' !in p && ' ' !in u
    ensures RemoveChar(RemoveChar(p + " " + u, ' '), '-') == p + RemoveChar(u, '-')
  {
    RemoveCharConcat(p + " ", u, ' ');
    RemoveCharConcat(p, " ", ' ');
    RemoveCharAbsent(p, ' ');
    assert RemoveChar(" ", ' ') == [];
    RemoveCharAbsent(u, ' ');
    assert RemoveChar(p + " " + u, ' ') == p + u;
    RemoveCharConcat(p, u, '-');
    RemoveCharAbsent(p, '-');
  }

  /** For a uuid4 the name is "Schedule" followed by its 32 hex digits. */
  lemma ScheduleNameOfUuid(u: string)
    requires IsUuidText(u)
    ensures ScheduleName(u) == "Schedule" + u[..8] + u[9..13] + u[14..18] + u[19..23] + u[24..]
    ensures |ScheduleName(u)| == 40
  {
    assert "Schedule " + u == "Schedule" + " " + u;
    UuidHasNoSpace(u);
    DropSpaceThenHyphens("Schedule", u);
    UuidDigits(u);
  }
}
