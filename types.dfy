/**
 * The task record, its identifier wrapper, timestamps and the two string
 * helpers of the same source file: `slugify` and `Task.filename`.
 */
module Types {
  import opened Wrappers

  /**
   * A point in time, as an opaque count of microseconds. Order is the order
   * of `datetime`; `0` plays the part of `datetime.min`.
   */
  type Timestamp = nat

  const TicksPerDay: nat := 86_400_000_000

  predicate IsDigit(c: char) {
    '0' <= c <= '9'
  }

  predicate AllDigits(s: string) {
    forall i | 0 <= i < |s| :: IsDigit(s[i])
  }

  function DigitChar(d: nat): (c: char)
    requires d < 10
    ensures IsDigit(c)
  {
    ('0' as int + d) as char
  }

  function DigitValue(c: char): nat
    requires IsDigit(c)
  {
    c as int - '0' as int
  }

  /**
   * The text form of a timestamp. It stands for `isoformat()` (and for
   * `str()`, which differs from it only in the date/time separator).
   */
  function TimeText(t: Timestamp): (s: string)
    ensures |s| > 0 && AllDigits(s)
  {
    if t < 10 then [DigitChar(t)] else TimeText(t / 10) + [DigitChar(t % 10)]
  }

  function DigitsValue(s: string): nat
    requires AllDigits(s)
  {
    if s == [] then 0 else DigitsValue(s[..|s| - 1]) * 10 + DigitValue(s[|s| - 1])
  }

  /** `datetime.fromisoformat`; `None` stands for the `ValueError` it raises. */
  function ParseTime(s: string): (r: Option<Timestamp>)
    ensures r.Some? <==> s != [] && AllDigits(s)
  {
    if s != [] && AllDigits(s) then Some(DigitsValue(s)) else None
  }

  lemma {:induction false} DigitsValueOfTimeText(t: Timestamp)
    ensures DigitsValue(TimeText(t)) == t
  {
    var s := TimeText(t);
    if t < 10 {
      assert s[..|s| - 1] == [];
    } else {
      DigitsValueOfTimeText(t / 10);
      assert s[..|s| - 1] == TimeText(t / 10);
    }
  }

  /** Parsing the rendered text gives back the same instant. */
  lemma ParseTimeText(t: Timestamp)
    ensures ParseTime(TimeText(t)) == Some(t)
  {
    DigitsValueOfTimeText(t);
  }

  /** Distinct instants render to distinct text. */
  lemma TimeTextInjective(a: Timestamp, b: Timestamp)
    requires TimeText(a) == TimeText(b)
    ensures a == b
  {
    ParseTimeText(a);
    ParseTimeText(b);
  }

  /**
   * A task. `title` is the source's `task` field. `created` is optional
   * because decoding maps a falsy timestamp to `None`. The defaults are those
   * of the dataclass.
   */
  datatype Task = Task(
    id: string,
    title: string,
    done: bool,
    created: Option<Timestamp>,
    completed: Option<Timestamp> := None,
    due: Option<Timestamp> := None,
    pinned: bool := false,
    children: seq<string> := [],
    tags: seq<string> := [])

  /** The wrapper that marks a payload as a reference to a task. */
  datatype Id = Id(id: string)

  /** A task built with only the four required fields carries the dataclass defaults. */
  lemma TaskDefaults(id: string, title: string, done: bool, created: Option<Timestamp>)
    ensures var t := Task(id, title, done, created);
      t.completed == None && t.due == None && !t.pinned && t.children == [] && t.tags == []
  {
  }

  /** `Task.new`, with the uuid and the clock reading passed in. */
  function NewTask(title: string, uuid: string, now: Timestamp, due: Option<Timestamp> := None,
                   pinned: bool := false): (t: Task)
    ensures t.id == uuid && t.title == title && t.created == Some(now)
    ensures !t.done && t.completed == None
    ensures t.due == due && t.pinned == pinned && t.children == [] && t.tags == []
  {
    Task(id := uuid, title := title, done := false, created := Some(now), due := due, pinned := pinned)
  }

  // ---------------------------------------------------------------------
  // slugify

  /** Python's `str.isspace` (the ASCII part, plus the Unicode spaces). */
  predicate IsSpace(c: char)
    ensures IsSpace(c) ==> !IsAlnum(c) && !IsDash(c)
    ensures c == ' ' || c == '\t' || c == '\n' || c == '\r' ==> IsSpace(c)
  {
    var n := c as int;
    n == 32 || 9 <= n <= 13 || 28 <= n <= 31 || n == 0x85 || n == 0xA0 || n == 0x1680
    || 0x2000 <= n <= 0x200A || n == 0x2028 || n == 0x2029 || n == 0x202F || n == 0x205F
    || n == 0x3000
  }

  /** The character class `[a-zA-Z0-9]`. */
  predicate IsAlnum(c: char) {
    'a' <= c <= 'z' || 'A' <= c <= 'Z' || IsDigit(c)
  }

  predicate IsDash(c: char) {
    c == '-'
  }

  /** A character that may appear in a slug: `[a-z0-9-]`. */
  predicate IsSlugChar(c: char) {
    'a' <= c <= 'z' || IsDigit(c) || c == '-'
  }

  predicate AllSlugChars(s: string) {
    forall i | 0 <= i < |s| :: IsSlugChar(s[i])
  }

  /** No two consecutive dashes. */
  predicate NoDoubleDash(s: string) {
    |s| < 2 || ((s[0] != '-' || s[1] != '-') && NoDoubleDash(s[1..]))
  }

  predicate NoUpper(s: string) {
    forall i | 0 <= i < |s| :: !('A' <= s[i] <= 'Z')
  }

  /**
   * `c.lower()` as far as a slug can tell. ASCII letters, KELVIN SIGN (U+212A)
   * and LATIN CAPITAL LETTER I WITH DOT ABOVE (U+0130, which lowers to `i` and
   * a combining dot) are the characters whose lower case holds a character of
   * `[a-zA-Z0-9]`. Every other character is kept: neither it nor its lower case
   * is in that class.
   */
  function LowerChar(c: char): (r: string)
    ensures |r| >= 1 && NoUpper(r)
    ensures IsSlugChar(c) ==> r == [c]
    ensures 'A' <= c <= 'Z' ==> |r| == 1 && IsSlugChar(r[0]) && r[0] as int - c as int == 32
    ensures !Expands(c) ==> r == [AsciiLower(c)]
  {
    if 'A' <= c <= 'Z' then [AsciiLower(c)]
    else if c == '\U{212A}' then "k"
    else if c == '\U{0130}' then "i\U{0307}"
    else [c]
  }

  /** The ASCII lower case: `A`-`Z` move to `a`-`z`, everything else stays. */
  function AsciiLower(c: char): char {
    if 'A' <= c <= 'Z' then (c as int + 32) as char else c
  }

  /** The two characters whose lower case is not their ASCII lower case. */
  predicate Expands(c: char) {
    c == '\U{212A}' || c == '\U{0130}'
  }

  predicate NoExpands(s: string) {
    forall k | 0 <= k < |s| :: !Expands(s[k])
  }

  /** `str.lower`: each character replaced by its lower case. */
  function Lower(s: string): (r: string)
    ensures NoUpper(r)
    ensures |r| >= |s|
    ensures NoExpands(s) ==> |r| == |s| && forall k | 0 <= k < |s| :: r[k] == AsciiLower(s[k])
  {
    if s == [] then [] else LowerChar(s[0]) + Lower(s[1..])
  }

  /** Drops leading characters satisfying `drop`; the result is a suffix. */
  function TrimStart(s: string, drop: char -> bool): (r: string)
    ensures |r| <= |s| && r == s[|s| - |r|..]
    ensures r == [] || !drop(r[0])
    ensures forall k | 0 <= k < |s| - |r| :: drop(s[k])
  {
    if s != [] && drop(s[0]) then TrimStart(s[1..], drop) else s
  }

  /** Drops trailing characters satisfying `drop`; the result is a prefix. */
  function TrimEnd(s: string, drop: char -> bool): (r: string)
    ensures |r| <= |s| && r == s[..|r|]
    ensures r == [] || !drop(r[|r| - 1])
    ensures forall k | |r| <= k < |s| :: drop(s[k])
  {
    if s != [] && drop(s[|s| - 1]) then TrimEnd(s[..|s| - 1], drop) else s
  }

  /** `str.strip(chars)`: trims both ends, so neither end holds a dropped character. */
  function Strip(s: string, drop: char -> bool): (r: string)
    ensures |r| <= |s|
    ensures r == [] || (!drop(r[0]) && !drop(r[|r| - 1]))
    ensures exists i :: SliceWithin(s, drop, i, r)
  {
    var left := TrimStart(s, drop);
    var r := TrimEnd(left, drop);
    assert r != [] ==> r[0] == left[0];
    StripWitness(s, drop, left, r);
    r
  }

  /** `r` is `s[i..i + |r|]`, and every character of `s` outside that slice satisfies `drop`. */
  predicate SliceWithin(s: string, drop: char -> bool, i: int, r: string) {
    0 <= i <= |s| - |r| && r == s[i..i + |r|]
    && (forall k | 0 <= k < i :: drop(s[k]))
    && (forall k | i + |r| <= k < |s| :: drop(s[k]))
  }

  lemma StripWitness(s: string, drop: char -> bool, left: string, r: string)
    requires |left| <= |s| && left == s[|s| - |left|..]
    requires forall k | 0 <= k < |s| - |left| :: drop(s[k])
    requires |r| <= |left| && r == left[..|r|]
    requires forall k | |r| <= k < |left| :: drop(left[k])
    ensures SliceWithin(s, drop, |s| - |left|, r)
  {
    var i := |s| - |left|;
    forall k | i + |r| <= k < |s|
      ensures drop(s[k])
    {
      assert s[k] == left[k - i];
    }
  }

  /**
   * `re.sub(r"[^a-zA-Z0-9]+", "-", s)`: every maximal run of other characters
   * becomes one dash. `inRun` says that such a run has already begun.
   */
  function Collapse(s: string, inRun: bool): (r: string)
    ensures NoUpper(s) ==> AllSlugChars(r)
    ensures NoDoubleDash(r)
    ensures inRun ==> r == [] || r[0] != '-'
    ensures Alnums(r) == Alnums(s)
    ensures forall k | 0 <= k < |r| :: IsAlnum(r[k]) || r[k] == '-'
  {
    if s == [] then []
    else if IsAlnum(s[0]) then
      AlnumsCons(s[0], Collapse(s[1..], false));
      [s[0]] + Collapse(s[1..], false)
    else if inRun then Collapse(s[1..], true)
    else
      AlnumsCons('-', Collapse(s[1..], true));
      ['-'] + Collapse(s[1..], true)
  }

  /** The `[a-zA-Z0-9]` characters of `s`, in order. */
  function Alnums(s: string): string {
    if s == [] then []
    else (if IsAlnum(s[0]) then [s[0]] else []) + Alnums(s[1..])
  }

  lemma AlnumsCons(c: char, s: string)
    ensures Alnums([c] + s) == (if IsAlnum(c) then [c] else []) + Alnums(s)
  {
    assert ([c] + s)[1..] == s;
  }

  /**
   * `slugify(title)`: strip, lower-case, collapse, strip dashes. The result
   * holds only `[a-z0-9-]`, never two dashes in a row and no dash at either end.
   */
  function Slugify(title: string): (r: string)
    ensures IsSlugShaped(r)
  {
    var c := Collapse(Lower(Strip(title, IsSpace)), false);
    StripDashesChars(c);
    StripDashesShape(c);
    var r := Strip(c, IsDash);
    assert r == [] || (r[0] != '-' && r[|r| - 1] != '-');
    r
  }

  lemma {:induction false} NoDoubleDashSuffix(s: string, k: nat)
    requires k <= |s| && NoDoubleDash(s)
    ensures NoDoubleDash(s[k..])
    decreases k
  {
    if k > 0 {
      NoDoubleDashSuffix(s[1..], k - 1);
      assert s[1..][k - 1..] == s[k..];
    }
  }

  lemma {:induction false} NoDoubleDashPrefix(s: string, k: nat)
    requires k <= |s| && NoDoubleDash(s)
    ensures NoDoubleDash(s[..k])
    decreases k
  {
    if k >= 2 {
      NoDoubleDashPrefix(s[1..], k - 1);
      assert s[..k][1..] == s[1..][..k - 1];
    }
  }

  /** Stripping dashes keeps a string within `[a-z0-9-]`. */
  lemma StripDashesChars(c: string)
    requires AllSlugChars(c)
    ensures AllSlugChars(Strip(c, IsDash))
  {
    var left := TrimStart(c, IsDash);
    SlugCharsSlice(c, |c| - |left|, |c|);
    assert left == c[|c| - |left|..|c|];
    var r := TrimEnd(left, IsDash);
    SlugCharsSlice(left, 0, |r|);
    assert r == left[0..|r|];
  }

  lemma SlugCharsSlice(s: string, i: nat, j: nat)
    requires AllSlugChars(s) && i <= j <= |s|
    ensures AllSlugChars(s[i..j])
  {
    forall k | 0 <= k < j - i
      ensures IsSlugChar(s[i..j][k])
    {
      assert s[i..j][k] == s[i + k];
    }
  }

  /** Stripping dashes keeps a string free of double dashes. */
  lemma StripDashesShape(s: string)
    requires NoDoubleDash(s)
    ensures NoDoubleDash(Strip(s, IsDash))
  {
    var left := TrimStart(s, IsDash);
    var r := TrimEnd(left, IsDash);
    NoDoubleDashSuffix(s, |s| - |left|);
    NoDoubleDashPrefix(left, |r|);
  }

  lemma {:induction false} CollapseFixed(s: string, inRun: bool)
    requires forall i | 0 <= i < |s| :: IsAlnum(s[i]) || s[i] == '-'
    requires NoDoubleDash(s)
    requires inRun ==> s == [] || s[0] != '-'
    ensures Collapse(s, inRun) == s
    decreases |s|
  {
    if s != [] {
      CollapseFixed(s[1..], !IsAlnum(s[0]));
    }
  }

  lemma StripFixed(s: string, drop: char -> bool)
    requires s == [] || (!drop(s[0]) && !drop(s[|s| - 1]))
    ensures Strip(s, drop) == s
  {
  }

  lemma {:induction false} LowerFixed(s: string)
    requires AllSlugChars(s)
    ensures Lower(s) == s
  {
    if s != [] {
      assert IsSlugChar(s[0]);
      SlugCharsSlice(s, 1, |s|);
      assert s[1..|s|] == s[1..];
      LowerFixed(s[1..]);
      assert [s[0]] + s[1..] == s;
    }
  }

  predicate IsSlugShaped(r: string) {
    AllSlugChars(r) && NoDoubleDash(r) && (r == [] || (r[0] != '-' && r[|r| - 1] != '-'))
  }

  lemma StripSpaceOfSlug(r: string)
    requires IsSlugShaped(r)
    ensures Strip(r, IsSpace) == r
  {
    assert r != [] ==> IsSlugChar(r[0]) && IsSlugChar(r[|r| - 1]);
    StripFixed(r, IsSpace);
  }

  lemma CollapseOfSlug(r: string)
    requires IsSlugShaped(r)
    ensures Collapse(Lower(r), false) == r
  {
    LowerFixed(r);
    CollapseFixed(r, false);
  }

  /** A string that already has the shape of a slug is its own slug. */
  lemma SlugifyOfSlug(r: string)
    requires IsSlugShaped(r)
    ensures Slugify(r) == r
  {
    StripSpaceOfSlug(r);
    CollapseOfSlug(r);
    StripFixed(r, IsDash);
  }

  /** Slugify, stage by stage. */
  lemma SlugifyStages(title: string, stripped: string, lowered: string, collapsed: string)
    requires Strip(title, IsSpace) == stripped
    requires Lower(stripped) == lowered
    requires Collapse(lowered, false) == collapsed
    ensures Slugify(title) == Strip(collapsed, IsDash)
  {
  }

  /** KELVIN SIGN lowers to `k`, which survives into the slug. */
  lemma SlugifyKelvin()
    ensures Slugify("\U{212A}") == "k"
  {
    StripSpacesKelvin();
    LowerKelvin();
    CollapseK();
    SlugifyStages("\U{212A}", "\U{212A}", "k", "k");
    StripDashesK();
  }

  lemma StripSpacesKelvin()
    ensures Strip("\U{212A}", IsSpace) == "\U{212A}"
  {
    StripFixed("\U{212A}", IsSpace);
  }

  lemma StripDashesK()
    ensures Strip("k", IsDash) == "k"
  {
    var s := "k";
    assert s[0] == 'k' && s[|s| - 1] == 'k';
    StripFixed(s, IsDash);
  }

  lemma LowerKelvin()
    ensures Lower("\U{212A}") == "k"
  {
    var kelvin := "\U{212A}";
    assert kelvin[1..] == [];
  }

  lemma CollapseK()
    ensures Collapse("k", false) == "k"
  {
    assert "k"[1..] == [];
  }

  /** U+0130 lowers to `i` and a combining dot, and the dot becomes a dash. */
  lemma SlugifyDottedI()
    ensures Slugify("\U{0130}x") == "i-x"
  {
    StripSpacesDottedI();
    LowerDottedI();
    CollapseDottedI();
    SlugifyStages("\U{0130}x", "\U{0130}x", "i\U{0307}x", "i-x");
    StripDashesIX();
  }

  lemma StripSpacesDottedI()
    ensures Strip("\U{0130}x", IsSpace) == "\U{0130}x"
  {
    var s := "\U{0130}x";
    assert s[0] == '\U{0130}' && s[|s| - 1] == 'x';
    StripFixed(s, IsSpace);
  }

  lemma StripDashesIX()
    ensures Strip("i-x", IsDash) == "i-x"
  {
    var s := "i-x";
    assert s[0] == 'i' && s[|s| - 1] == 'x';
    StripFixed(s, IsDash);
  }

  lemma LowerDottedI()
    ensures Lower("\U{0130}x") == "i\U{0307}x"
  {
    var dotted := "\U{0130}x";
    assert dotted[1..] == "x";
    assert "x"[1..] == [];
  }

  lemma CollapseDottedI()
    ensures Collapse("i\U{0307}x", false) == "i-x"
  {
    var lowered := "i\U{0307}x";
    assert lowered[1..] == "\U{0307}x";
    assert lowered[1..][1..] == "x";
    assert "x"[1..] == [];
  }

  /** `s` with every character ASCII-lowered. */
  function LowerAscii(s: string): (r: string)
    ensures |r| == |s|
  {
    if s == [] then [] else [AsciiLower(s[0])] + LowerAscii(s[1..])
  }

  lemma {:induction false} AlnumsAppend(a: string, b: string)
    ensures Alnums(a + b) == Alnums(a) + Alnums(b)
  {
    if a == [] {
      assert a + b == b;
    } else {
      assert a + b == [a[0]] + (a[1..] + b);
      AlnumsCons(a[0], a[1..] + b);
      AlnumsAppend(a[1..], b);
    }
  }

  /** `drop` holds of no character of `[a-zA-Z0-9]`. */
  predicate NeverAlnum(drop: char -> bool) {
    forall c :: drop(c) ==> !IsAlnum(c)
  }

  lemma SpaceNeverAlnum()
    ensures NeverAlnum(IsSpace) && NeverAlnum(IsDash)
  {
    forall c | IsSpace(c)
      ensures !IsAlnum(c)
    {
      assert IsSpace(c) ==> !IsAlnum(c);
    }
  }

  /** Stripping characters that are never alphanumeric keeps every alphanumeric. */
  lemma AlnumsOfSlice(s: string, drop: char -> bool, i: int, r: string)
    requires SliceWithin(s, drop, i, r)
    requires NeverAlnum(drop)
    ensures Alnums(r) == Alnums(s)
    ensures NoExpands(s) ==> NoExpands(r)
  {
    assert forall k | 0 <= k < |r| :: r[k] == s[i + k];
    assert s == s[..i] + r + s[i + |r|..];
    AlnumsAppend(s[..i] + r, s[i + |r|..]);
    AlnumsAppend(s[..i], r);
    AlnumsNone(s[..i]);
    AlnumsNone(s[i + |r|..]);
  }

  lemma {:induction false} AlnumsNone(s: string)
    requires forall k | 0 <= k < |s| :: !IsAlnum(s[k])
    ensures Alnums(s) == []
  {
    if s != [] {
      AlnumsNone(s[1..]);
    }
  }

  /** Lower-casing a string without KELVIN SIGN or U+0130 lowers its alphanumerics in place. */
  lemma {:induction false} AlnumsOfLower(s: string)
    requires NoExpands(s)
    ensures Alnums(Lower(s)) == LowerAscii(Alnums(s))
  {
    if s != [] {
      AlnumsOfLower(s[1..]);
      AlnumsCons(AsciiLower(s[0]), Lower(s[1..]));
      LowerAsciiAppend(if IsAlnum(s[0]) then [s[0]] else [], Alnums(s[1..]));
    }
  }

  lemma {:induction false} LowerAsciiAppend(a: string, b: string)
    ensures LowerAscii(a + b) == LowerAscii(a) + LowerAscii(b)
  {
    if a == [] {
      assert a + b == b;
    } else {
      assert (a + b)[1..] == a[1..] + b;
      LowerAsciiAppend(a[1..], b);
    }
  }

  /**
   * The slug keeps the title's letters and digits, lower-cased and in order,
   * when the title holds neither KELVIN SIGN nor U+0130.
   */
  lemma SlugifyKeepsAlnums(title: string)
    requires NoExpands(title)
    ensures Alnums(Slugify(title)) == LowerAscii(Alnums(title))
  {
    var stripped := Strip(title, IsSpace);
    SpaceNeverAlnum();
    StripKeepsAlnums(title, IsSpace);
    AlnumsOfLower(stripped);
    var lowered := Lower(stripped);
    var collapsed := Collapse(lowered, false);
    SlugifyStages(title, stripped, lowered, collapsed);
    StripKeepsAlnums(collapsed, IsDash);
  }

  /** Stripping characters that are never alphanumeric keeps the alphanumerics, and adds no character. */
  lemma StripKeepsAlnums(s: string, drop: char -> bool)
    requires NeverAlnum(drop)
    ensures Alnums(Strip(s, drop)) == Alnums(s)
    ensures NoExpands(s) ==> NoExpands(Strip(s, drop))
  {
    var r := Strip(s, drop);
    var i :| SliceWithin(s, drop, i, r);
    AlnumsOfSlice(s, drop, i, r);
  }

  /** Slugifying a slug changes nothing. */
  lemma SlugifyIdempotent(title: string)
    ensures Slugify(Slugify(title)) == Slugify(title)
  {
    SlugifyOfSlug(Slugify(title));
  }

  // ---------------------------------------------------------------------
  // filename

  /** `id.split("-")[0]`: the part of the id before its first dash. */
  function ShortId(id: string): (r: string)
    ensures |r| <= |id| && r == id[..|r|]
    ensures forall i | 0 <= i < |r| :: r[i] != '-'
    ensures |r| < |id| ==> id[|r|] == '-'
  {
    if id == [] || id[0] == '-' then [] else [id[0]] + ShortId(id[1..])
  }

  /** `f"{created:%Y-%m-%d}"`; the calendar day is abstracted as a day count. */
  function DateText(t: Timestamp): (r: string)
    ensures r != [] && AllDigits(r)
    ensures ParseTime(r) == Some(t / TicksPerDay)
    ensures t < TicksPerDay ==> r == "0"
  {
    ParseTimeText(t / TicksPerDay);
    TimeText(t / TicksPerDay)
  }

  /**
   * `Task.filename`. Formatting a missing `created` with a date format raises
   * `TypeError`.
   */
  function Filename(t: Task): (r: Result<string>)
    ensures r.Failure? <==> t.created.None?
    ensures r.Failure? ==> r.error == TypeError
  {
    match t.created
    case None => Failure(TypeError)
    case Some(c) => Success(DateText(c) + "_" + Slugify(t.title) + "-" + ShortId(t.id) + ".md")
  }

  /** `name` is `date`, `_`, `slug`, `-`, `short` and `.md`, each at its offset. */
  predicate HasParts(name: string, date: string, slug: string, short: string) {
    |name| == |date| + |slug| + |short| + 5
    && name[..|date|] == date && name[|date|] == '_'
    && name[|date| + 1..|date| + 1 + |slug|] == slug
    && name[|date| + 1 + |slug|] == '-'
    && name[|date| + 2 + |slug|..|name| - 3] == short
    && name[|name| - 3..] == ".md"
  }

  lemma {:induction false} ConcatParts(date: string, slug: string, short: string)
    ensures HasParts(date + "_" + slug + "-" + short + ".md", date, slug, short)
  {
    var name := date + "_" + slug + "-" + short + ".md";
    assert name == date + ("_" + slug + "-" + short + ".md");
  }

  /**
   * The file name is the day of creation, `_`, the slug of the title, `-`, the
   * id up to its first dash, and `.md`.
   */
  lemma FilenameParts(t: Task)
    requires t.created.Some?
    ensures HasParts(Filename(t).value, DateText(t.created.value), Slugify(t.title), ShortId(t.id))
  {
    var date := DateText(t.created.value);
    var slug := Slugify(t.title);
    var short := ShortId(t.id);
    assert Filename(t).value == date + "_" + slug + "-" + short + ".md";
    ConcatParts(date, slug, short);
  }
}
