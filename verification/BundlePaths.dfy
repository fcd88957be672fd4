/** The four path namespaces of a backup root, relative to that root: incoming runs, published
    bundles, quarantined bundles and bundles being purged. */
module BundlePaths {
  import opened Wrappers

  type Path = seq<string>

  // ---- Path components ----

  predicate IsAlphanumeric(c: char) {
    'a' <= c <= 'z' || 'A' <= c <= 'Z' || '0' <= c <= '9'
  }

  predicate SafeComponent(value: string) {
    value != "" && IsAlphanumeric(value[0]) && forall c :: c in value ==> IsAlphanumeric(c) || c in "_.-"
  }

  predicate IsDiskName(name: string) {
    |name| >= 6 && name[|name| - 6..] == ".qcow2" && SafeComponent(name[..|name| - 6])
  }

  function LowerChar(c: char): char {
    if 'A' <= c <= 'Z' then c - 'A' + 'a' else c
  }

  function Lower(value: string): (r: string)
    ensures |r| == |value|
  {
    seq(|value|, i requires 0 <= i < |value| => LowerChar(value[i]))
  }

  predicate IsHex(c: char) {
    'a' <= c <= 'f' || '0' <= c <= '9'
  }

  predicate IsCanonicalUuid(value: string) {
    && |value| == 36
    && forall i :: 0 <= i < 36 ==> if i in {8, 13, 18, 23} then value[i] == '-' else IsHex(value[i])
  }

  predicate IsHexText(text: string, length: nat) {
    |text| == length && forall i :: 0 <= i < length ==> IsHex(text[i])
  }

  lemma HexDigits(c: char)
    ensures IsHex(c) <==> c in "0123456789abcdef"
  {
    if '0' <= c <= '9' { assert "0123456789abcdef"[c as int - '0' as int] == c; }
    if 'a' <= c <= 'f' { assert "0123456789abcdef"[c as int - 'a' as int + 10] == c; }
  }

  /** A canonical UUID is five groups of hexadecimal digits. */
  lemma UuidIsGrouped(value: string)
    ensures IsCanonicalUuid(value) <==>
      exists a, b, c, d, e ::
        && IsHexText(a, 8) && IsHexText(b, 4) && IsHexText(c, 4) && IsHexText(d, 4) && IsHexText(e, 12)
        && value == a + "-" + b + "-" + c + "-" + d + "-" + e
  {
    if IsCanonicalUuid(value) {
      var a, b, c, d, e := value[..8], value[9..13], value[14..18], value[19..23], value[24..];
      assert IsHexText(a, 8) && IsHexText(b, 4) && IsHexText(c, 4) && IsHexText(d, 4) && IsHexText(e, 12);
      assert value == a + "-" + b + "-" + c + "-" + d + "-" + e;
    }
  }

  /** A UUID in the hyphenated form, in lower case. */
  function UuidComponent(value: string): Option<string> {
    if IsCanonicalUuid(Lower(value)) then Some(Lower(value)) else None
  }

  // ---- Timestamps in UTC seconds ----

  datatype Stamp = Stamp(year: nat, month: nat, day: nat, hour: nat, minute: nat, second: nat) {

    predicate Valid() {
      && 1000 <= year <= 9999 && 1 <= month <= 12 && 1 <= day <= DaysInMonth(year, month)
      && hour < 24 && minute < 60 && second < 60
    }
  }

  function DaysInMonth(year: nat, month: nat): nat {
    if month == 2 then
      if year % 4 == 0 && (year % 100 != 0 || year % 400 == 0) then 29 else 28
    else if month in {4, 6, 9, 11} then 30
    else 31
  }

  /** The days of the years before a year, in the Gregorian calendar. */
  function DaysBefore(year: nat): int
    requires year >= 1
  {
    365 * (year - 1) + (year - 1) / 4 - (year - 1) / 100 + (year - 1) / 400
  }

  /** The days of the first months of a year. */
  function DaysOfMonths(year: nat, months: nat): nat {
    if months == 0 then 0 else DaysOfMonths(year, months - 1) + DaysInMonth(year, months)
  }

  /** The months fill the year, and outside February long and short ones alternate up to July and from August
      on. */
  lemma MonthsAreGregorian(year: nat, month: nat)
    requires year >= 1 && 1 <= month <= 12
    ensures DaysOfMonths(year, 12) == DaysBefore(year + 1) - DaysBefore(year)
    ensures month != 2 ==> DaysInMonth(year, month) == 30 + (month + month / 8) % 2
  {
    YearLength(year);
    assert DaysOfMonths(year, 1) == 31;
    assert DaysOfMonths(year, 2) == 31 + DaysInMonth(year, 2);
    assert DaysOfMonths(year, 4) == DaysOfMonths(year, 3) + 30 == DaysOfMonths(year, 2) + 61;
    assert DaysOfMonths(year, 6) == DaysOfMonths(year, 5) + 30 == DaysOfMonths(year, 4) + 61;
    assert DaysOfMonths(year, 8) == DaysOfMonths(year, 7) + 31 == DaysOfMonths(year, 6) + 62;
    assert DaysOfMonths(year, 10) == DaysOfMonths(year, 9) + 31 == DaysOfMonths(year, 8) + 61;
    assert DaysOfMonths(year, 12) == DaysOfMonths(year, 11) + 31 == DaysOfMonths(year, 10) + 61;
  }

  lemma YearLength(year: nat)
    requires year >= 1
    ensures DaysBefore(year + 1) - DaysBefore(year) == 337 + DaysInMonth(year, 2)
  {
    FloorStep(year, 4);
    FloorStep(year, 100);
    FloorStep(year, 400);
    Multiple(year, 100, 4);
    Multiple(year, 4, 25);
  }

  lemma Multiple(n: nat, d: nat, factor: nat)
    requires (d, factor) in {(100, 4), (4, 25)}
    ensures n % (d * factor) == 0 ==> n % d == 0
  {
    if n % (d * factor) == 0 { assert n == d * (factor * (n / (d * factor))); }
  }

  lemma FloorStep(n: nat, d: nat)
    requires n >= 1 && d in {4, 100, 400}
    ensures n / d == (n - 1) / d + if n % d == 0 then 1 else 0
  {
  }

  function Tens(n: nat): (c: char)
    requires n < 100
    ensures DigitValue(c) == Some(n / 10) && c != '_'
  {
    '0' + (n / 10) as char
  }

  function Units(n: nat): (c: char)
    requires n < 100
    ensures DigitValue(c) == Some(n % 10) && c != '_'
  {
    '0' + (n % 10) as char
  }

  /** The timestamp as strftime prints it. */
  function Print(stamp: Stamp): (text: string)
    requires stamp.Valid()
    ensures |text| == 16
  {
    var century, year := stamp.year / 100, stamp.year % 100;
    [Tens(century), Units(century), Tens(year), Units(year),
     Tens(stamp.month), Units(stamp.month), Tens(stamp.day), Units(stamp.day), 'T',
     Tens(stamp.hour), Units(stamp.hour), Tens(stamp.minute), Units(stamp.minute),
     Tens(stamp.second), Units(stamp.second), 'Z']
  }

  function DigitValue(c: char): Option<nat> {
    if '0' <= c <= '9' then Some((c - '0') as nat) else None
  }

  function ReadTwo(text: string, at: nat): Option<nat>
    requires at + 2 <= |text|
  {
    match (DigitValue(text[at]), DigitValue(text[at + 1]))
    case (Some(tens), Some(units)) => Some(10 * tens + units)
    case _ => None
  }

  /** The timestamp that a text denotes, if it denotes one. */
  function Parse(text: string): (r: Option<Stamp>)
    ensures r.Some? ==> r.value.Valid()
  {
    if |text| != 16 || text[8] != 'T' || text[15] != 'Z' then None
    else
      match (ReadTwo(text, 0), ReadTwo(text, 2), ReadTwo(text, 4), ReadTwo(text, 6),
             ReadTwo(text, 9), ReadTwo(text, 11), ReadTwo(text, 13))
      case (Some(century), Some(year), Some(month), Some(day), Some(hour), Some(minute), Some(second)) =>
        var stamp := Stamp(100 * century + year, month, day, hour, minute, second);
        if stamp.Valid() then Some(stamp) else None
      case _ => None
  }

  lemma FieldReadsBack(text: string, at: nat, n: nat)
    requires at + 2 <= |text| && n < 100 && text[at] == Tens(n) && text[at + 1] == Units(n)
    ensures ReadTwo(text, at) == Some(n)
  {
  }

  lemma PrintedDateReadsBack(stamp: Stamp)
    requires stamp.Valid()
    ensures var text := Print(stamp);
      && ReadTwo(text, 0) == Some(stamp.year / 100) && ReadTwo(text, 2) == Some(stamp.year % 100)
      && ReadTwo(text, 4) == Some(stamp.month) && ReadTwo(text, 6) == Some(stamp.day)
  {
    FieldReadsBack(Print(stamp), 0, stamp.year / 100);
    FieldReadsBack(Print(stamp), 2, stamp.year % 100);
    FieldReadsBack(Print(stamp), 4, stamp.month);
    FieldReadsBack(Print(stamp), 6, stamp.day);
  }

  lemma PrintedTimeReadsBack(stamp: Stamp)
    requires stamp.Valid()
    ensures var text := Print(stamp);
      && ReadTwo(text, 9) == Some(stamp.hour) && ReadTwo(text, 11) == Some(stamp.minute)
      && ReadTwo(text, 13) == Some(stamp.second)
  {
    FieldReadsBack(Print(stamp), 9, stamp.hour);
    FieldReadsBack(Print(stamp), 11, stamp.minute);
    FieldReadsBack(Print(stamp), 13, stamp.second);
  }

  lemma PrintedStampParses(stamp: Stamp)
    requires stamp.Valid()
    ensures Parse(Print(stamp)) == Some(stamp)
  {
    PrintedDateReadsBack(stamp);
    PrintedTimeReadsBack(stamp);
    assert stamp.year == 100 * (stamp.year / 100) + stamp.year % 100;
    assert Print(stamp)[8] == 'T' && Print(stamp)[15] == 'Z';
  }

  // ---- Published bundles ----

  datatype Identity = Identity(vm: string, run: string, stamp: Stamp)

  /** The published path of a bundle, or None for an unsafe VM or run ID. */
  function Final(vm: string, run: string, stamp: Stamp): Option<Path>
    requires stamp.Valid()
  {
    match (UuidComponent(vm), UuidComponent(run))
    case (Some(v), Some(r)) =>
      var year, name := Print(stamp)[..4], Print(stamp) + "_" + r;
      Some(["vms", v, year, Print(stamp)[4..6], name])
    case _ => None
  }

  /** A published path says, directory by directory, the VM, the year and the month, and in its name the whole
      stamp and the run. */
  lemma PublishedPathReads(vm: string, run: string, stamp: Stamp)
    requires stamp.Valid() && Final(vm, run, stamp).Some?
    ensures var path := Final(vm, run, stamp).value;
      && |path| == 5 && path[0] == "vms" && path[1] == Lower(vm)
      && |path[2]| == 4 && ReadTwo(path[2], 0) == Some(stamp.year / 100) && ReadTwo(path[2], 2) == Some(stamp.year % 100)
      && |path[3]| == 2 && ReadTwo(path[3], 0) == Some(stamp.month)
      && |path[4]| == 53 && Parse(path[4][..16]) == Some(stamp) && path[4][16] == '_' && path[4][17..] == Lower(run)
  {
    var text := Print(stamp);
    PrintedStampParses(stamp);
    PrintedDateReadsBack(stamp);
    SliceReads(text, 0, 4, 0);
    SliceReads(text, 0, 4, 2);
    SliceReads(text, 4, 6, 0);
    assert text == (text + "_" + Lower(run))[..16];
  }

  lemma SliceReads(text: string, from: nat, to: nat, at: nat)
    requires from + at + 2 <= to <= |text|
    ensures ReadTwo(text[from..to], at) == ReadTwo(text, from + at)
  {
  }

  /** The position of the first underscore. */
  function Separator(text: string): Option<nat> {
    if text == "" then None
    else if text[0] == '_' then Some(0)
    else
      match Separator(text[1..])
      case Some(i) => Some(i + 1)
      case None => None
  }

  lemma {:induction false} SeparatorAfter(before: string, after: string)
    requires '_' !in before
    ensures Separator(before + "_" + after) == Some(|before|)
  {
    if before != "" {
      assert (before + "_" + after)[1..] == before[1..] + "_" + after;
      SeparatorAfter(before[1..], after);
    }
  }

  lemma {:induction false} SeparatorIsInside(text: string)
    ensures Separator(text).Some? ==> Separator(text).value < |text|
  {
    if text != "" { SeparatorIsInside(text[1..]); }
  }

  /** The identity encoded in a published path, accepted only if it prints back to the path. */
  function ValidatedRelative(path: Path): Option<Identity> {
    if |path| != 5 || path[0] != "vms" then None
    else
      SeparatorIsInside(path[4]);
      match Separator(path[4])
      case None => None
      case Some(i) =>
        match Parse(path[4][..i])
        case None => None
        case Some(stamp) =>
          var run := path[4][i + 1..];
          if Final(path[1], run, stamp) == Some(path) then Some(Identity(path[1], run, stamp)) else None
  }

  lemma LowerTwice(value: string)
    ensures Lower(Lower(value)) == Lower(value)
  {
  }

  /** Printing and then validating recovers the lower-cased IDs and the UTC second, so the
      published path is injective on them. */
  lemma PublishedPathRoundTrips(vm: string, run: string, stamp: Stamp)
    requires stamp.Valid() && Final(vm, run, stamp).Some?
    ensures ValidatedRelative(Final(vm, run, stamp).value) == Some(Identity(Lower(vm), Lower(run), stamp))
  {
    var path := Final(vm, run, stamp).value;
    var text := Print(stamp);
    PrintedStampParses(stamp);
    SeparatorAfter(text, Lower(run));
    assert path[4][..16] == text && path[4][17..] == Lower(run);
    LowerTwice(vm);
    LowerTwice(run);
  }

  /** Validation accepts exactly the canonical published paths. */
  lemma AcceptedPathsAreCanonical(path: Path)
    ensures ValidatedRelative(path).Some? <==>
      exists vm, run, stamp: Stamp :: stamp.Valid() && Final(vm, run, stamp) == Some(path)
  {
    if ValidatedRelative(path).Some? {
      var id := ValidatedRelative(path).value;
      assert id.stamp.Valid() && Final(id.vm, id.run, id.stamp) == Some(path);
    }
    if vm, run, stamp: Stamp :| stamp.Valid() && Final(vm, run, stamp) == Some(path) {
      PublishedPathRoundTrips(vm, run, stamp);
    }
  }

  // ---- The other namespaces ----

  predicate IsHex32(text: string) {
    |text| == 32 && forall c :: c in text ==> IsHex(c)
  }

  function Incoming(run: string): Option<Path> {
    match UuidComponent(run)
    case Some(r) => Some([".incoming", r])
    case None => None
  }

  /** The name under which one bundle is reclaimed: the restore point, or the digests of the
      destination and the source object when both are given. */
  function ReclaimName(digest: string -> string, restorePoint: string,
                       destination: Option<string>, source: Option<string>): Option<string>
  {
    match (destination, source)
    case (None, None) => UuidComponent(restorePoint)
    case (Some(d), Some(s)) => if d == "" || s == "" then None else Some(digest(d) + "-" + digest(s))
    case _ => None
  }

  predicate IsReclaimName(name: string) {
    IsCanonicalUuid(name) || (|name| == 65 && IsHex32(name[..32]) && name[32] == '-' && IsHex32(name[33..]))
  }

  function Reclaim(operation: string, name: string): Option<Path> {
    match UuidComponent(operation)
    case Some(op) => Some([".reclaim", op, name])
    case None => None
  }

  function ReclaimPurging(operation: string, name: string): Option<Path> {
    match UuidComponent(operation)
    case Some(op) => Some([".reclaim", op, ".purging", name])
    case None => None
  }

  lemma ReclaimNamesAreOrdinary(digest: string -> string, restorePoint: string,
                                destination: Option<string>, source: Option<string>)
    requires forall text :: IsHex32(digest(text))
    requires ReclaimName(digest, restorePoint, destination, source).Some?
    ensures IsReclaimName(ReclaimName(digest, restorePoint, destination, source).value)
  {
    match (destination, source)
    case (Some(d), Some(s)) =>
      var name := digest(d) + "-" + digest(s);
      assert name[..32] == digest(d) && name[33..] == digest(s);
    case _ =>
  }

  datatype Namespace = IncomingPath | FinalPath | ReclaimPath | PurgingPath

  ghost predicate InNamespace(kind: Namespace, path: Path) {
    match kind
    case IncomingPath => exists run :: Incoming(run) == Some(path)
    case FinalPath => ValidatedRelative(path).Some?
    case ReclaimPath => exists op, name :: IsReclaimName(name) && Reclaim(op, name) == Some(path)
    case PurgingPath => exists op, name :: IsReclaimName(name) && ReclaimPurging(op, name) == Some(path)
  }

  /** The length and the fixed components by which the namespaces differ. */
  predicate HasShape(kind: Namespace, path: Path) {
    match kind
    case IncomingPath => |path| == 2 && path[0] == ".incoming"
    case FinalPath => |path| == 5 && path[0] == "vms"
    case ReclaimPath => |path| == 3 && path[0] == ".reclaim" && path[2] != ".purging"
    case PurgingPath => |path| == 4 && path[0] == ".reclaim" && path[2] == ".purging"
  }

  lemma NamespaceShape(kind: Namespace, path: Path)
    requires InNamespace(kind, path)
    ensures HasShape(kind, path)
  {
    assert IsReclaimName(".purging") == false;
  }

  /** No path of the four namespaces lies at or below a different path of any of them, and no path
      belongs to two namespaces. */
  lemma NamespacesNeverNest(k1: Namespace, p1: Path, k2: Namespace, p2: Path)
    requires InNamespace(k1, p1) && InNamespace(k2, p2) && p1 <= p2
    ensures k1 == k2 && p1 == p2
  {
    SeparateShapes(k1, p1, k2, p2) by {
      NamespaceShape(k1, p1);
      NamespaceShape(k2, p2);
    }
  }

  lemma SeparateShapes(k1: Namespace, p1: Path, k2: Namespace, p2: Path)
    requires HasShape(k1, p1) && HasShape(k2, p2) && p1 <= p2
    ensures k1 == k2 && p1 == p2
  {
    assert p2[0] == p1[0] && (|p1| > 2 ==> p2[2] == p1[2]);
    assert |p1| == |p2| ==> p1 == p2;
  }
}
