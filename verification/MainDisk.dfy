/**
 The choice of the OS disk (internal/controller/xomachine/vm_ops.go:268-343).
 */
module MainDisk {
  import opened Options
  import opened Strings

  datatype Disk = Disk(id: string, position: string, device: string, bootable: bool, isCdDrive: bool, nameLabel: string)

  const MAX_INT := 0x7fff_ffff_ffff_ffff
  const MIN_INT := -0x8000_0000_0000_0000

  // ---------------------------------------------------------------------------
  // Positions
  // ---------------------------------------------------------------------------

  predicate IsDigit(c: char) {
    '0' <= c <= '9'
  }

  function Digit(c: char): nat
    requires IsDigit(c)
  {
    c as int - '0' as int
  }

  function DigitsValue(s: string): nat
    requires forall c <- s :: IsDigit(c)
  {
    if s == "" then 0
    else 10 * DigitsValue(s[..|s| - 1]) + Digit(s[|s| - 1])
  }

  /** strconv.Atoi: an optional sign and decimal digits, within 64 bits. */
  function ParseDiskPosition(position: string): Option<int> {
    var signed := position != "" && (position[0] == '-' || position[0] == '+');
    var digits := if signed then position[1..] else position;
    if digits == "" || exists c <- digits :: !IsDigit(c) then None
    else
      var v: int := DigitsValue(digits);
      var n: int := if position[0] == '-' then -v else v;
      if MIN_INT <= n <= MAX_INT then Some(n) else None
  }

  /** A number in decimal. */
  function Decimal(n: nat): string {
    if n < 10 then ["0123456789"[n]] else Decimal(n / 10) + ["0123456789"[n % 10]]
  }

  lemma {:induction false} DecimalValue(n: nat)
    ensures Decimal(n) != "" && forall c <- Decimal(n) :: IsDigit(c)
    ensures DigitsValue(Decimal(n)) == n
  {
    if n < 10 {
      DigitChar(n);
      assert Decimal(n)[..0] == "";
    } else {
      DecimalValue(n / 10);
      DigitChar(n % 10);
      assert Decimal(n)[..|Decimal(n)| - 1] == Decimal(n / 10);
    }
  }

  lemma DigitChar(d: nat)
    requires d < 10
    ensures IsDigit("0123456789"[d]) && Digit("0123456789"[d]) == d
  {
  }

  /** What a text of digits is read as, with either sign. */
  lemma DigitsParse(digits: string)
    requires digits != "" && forall c <- digits :: IsDigit(c)
    ensures var v: int := DigitsValue(digits);
            && ParseDiskPosition(digits) == (if v <= 0x7fff_ffff_ffff_ffff then Some(v) else None)
            && ParseDiskPosition("+" + digits) == (if v <= 0x7fff_ffff_ffff_ffff then Some(v) else None)
            && ParseDiskPosition("-" + digits) == (if v <= 0x8000_0000_0000_0000 then Some(-v) else None)
  {
    assert IsDigit(digits[0]);
    assert ("+" + digits)[1..] == digits && ("-" + digits)[1..] == digits;
  }

  /** Decimal numbers are read back, with either sign, as long as they fit 64 bits. */
  lemma DecimalParses(n: nat)
    ensures var (digits, v) := (Decimal(n), n as int);
            && ParseDiskPosition(digits) == (if v <= 0x7fff_ffff_ffff_ffff then Some(v) else None)
            && ParseDiskPosition("+" + digits) == (if v <= 0x7fff_ffff_ffff_ffff then Some(v) else None)
            && ParseDiskPosition("-" + digits) == (if v <= 0x8000_0000_0000_0000 then Some(-v) else None)
  {
    DecimalValue(n);
    DigitsParse(Decimal(n));
  }

  /** Nothing else is read: no empty text, no other character, no sign but in front of a digit. */
  lemma OnlyDecimalsParse(position: string)
    requires ParseDiskPosition(position).Some?
    ensures position != "" && position != "+" && position != "-"
    ensures forall k :: 0 <= k < |position| && !('0' <= position[k] <= '9') ==>
              k == 0 && (position[k] == '+' || position[k] == '-')
  {
    var signed := position[0] == '-' || position[0] == '+';
    var digits := if signed then position[1..] else position;
    assert digits != "" && forall c <- digits :: IsDigit(c);
    var n := |position| - |digits|;
    forall k | n <= k < |position| ensures IsDigit(position[k]) {
      assert position[k] == digits[k - n] && digits[k - n] in digits;
    }
  }

  // ---------------------------------------------------------------------------
  // Order
  // ---------------------------------------------------------------------------

  /** A 64-bit difference, with wrap-around. */
  function Wrap64(n: int): int {
    (n - MIN_INT) % 0x1_0000_0000_0000_0000 + MIN_INT
  }

  /** strings.Compare. */
  function CompareStrings(s: string, t: string): int {
    if s == [] then (if t == [] then 0 else -1)
    else if t == [] then 1
    else if s[0] != t[0] then (if s[0] < t[0] then -1 else 1)
    else CompareStrings(s[1..], t[1..])
  }

  /** s comes before t in a dictionary: at the first difference, or as a proper prefix. */
  predicate Before(s: string, t: string, k: nat) {
    && k <= |s| && k < |t| && s[..k] == t[..k]
    && (k == |s| || s[k] < t[k])
  }

  lemma {:induction false} CompareIsDictionary(s: string, t: string)
    ensures CompareStrings(s, t) < 0 <==> exists k: nat :: Before(s, t, k)
  {
    if s == [] {
      assert t != [] ==> Before(s, t, 0);
    } else if t != [] {
      if s[0] < t[0] {
        assert Before(s, t, 0);
      } else if s[0] == t[0] {
        CompareIsDictionary(s[1..], t[1..]);
        assert forall k: nat :: Before(s[1..], t[1..], k) ==> Before(s, t, k + 1) by {
          forall k: nat | Before(s[1..], t[1..], k) ensures Before(s, t, k + 1) {
            assert s[..k + 1] == [s[0]] + s[1..][..k] && t[..k + 1] == [t[0]] + t[1..][..k];
          }
        }
        forall k: nat | Before(s, t, k) ensures k > 0 && Before(s[1..], t[1..], k - 1) {
          assert s[1..][..k - 1] == s[..k][1..] && t[1..][..k - 1] == t[..k][1..];
        }
      } else {
        forall k: nat ensures !Before(s, t, k) {
          assert k > 0 && k <= |s| && k <= |t| ==> s[..k][0] == s[0] && t[..k][0] == t[0];
        }
      }
    }
  }

  function DiskOrder(a: Disk, b: Disk): int {
    var pa, pb := ParseDiskPosition(a.position), ParseDiskPosition(b.position);
    if pa.Some? && pb.Some? && pa != pb then Wrap64(pa.value - pb.value)
    else if pa.Some? && pb.None? then -1
    else if pa.None? && pb.Some? then 1
    else CompareStrings(a.device, b.device)
  }

  /** The difference of the two positions, if there is one, fits 64 bits. */
  predicate Fits(a: Disk, b: Disk) {
    var pa, pb := ParseDiskPosition(a.position), ParseDiskPosition(b.position);
    pa.Some? && pb.Some? ==> MIN_INT <= pa.value - pb.value <= MAX_INT && MIN_INT <= pb.value - pa.value <= MAX_INT
  }

  predicate SameKey(a: Disk, b: Disk) {
    ParseDiskPosition(a.position) == ParseDiskPosition(b.position) && a.device == b.device
  }

  lemma {:induction false} CompareAntisymmetric(s: string, t: string)
    ensures CompareStrings(s, t) == -CompareStrings(t, s)
    ensures CompareStrings(s, t) == 0 <==> s == t
  {
    if s != [] && t != [] {
      CompareAntisymmetric(s[1..], t[1..]);
      assert s == [s[0]] + s[1..] && t == [t[0]] + t[1..];
    }
  }

  lemma {:induction false} CompareTransitive(s: string, t: string, u: string)
    requires CompareStrings(s, t) <= 0 && CompareStrings(t, u) <= 0
    ensures CompareStrings(s, u) <= 0
  {
    if s != [] && t != [] && u != [] && s[0] == t[0] == u[0] {
      CompareTransitive(s[1..], t[1..], u[1..]);
    }
  }

  /** The order without wrap-around. */
  function PlainOrder(a: Disk, b: Disk): int {
    var pa, pb := ParseDiskPosition(a.position), ParseDiskPosition(b.position);
    if pa.Some? && pb.Some? && pa != pb then pa.value - pb.value
    else if pa.Some? && pb.None? then -1
    else if pa.None? && pb.Some? then 1
    else CompareStrings(a.device, b.device)
  }

  lemma OrderIsPlain(a: Disk, b: Disk)
    requires Fits(a, b)
    ensures DiskOrder(a, b) == PlainOrder(a, b)
  {
  }

  lemma PlainTransitive(a: Disk, b: Disk, c: Disk)
    requires PlainOrder(a, b) <= 0 && PlainOrder(b, c) <= 0
    ensures PlainOrder(a, c) <= 0
  {
    if CompareStrings(a.device, b.device) <= 0 && CompareStrings(b.device, c.device) <= 0 {
      CompareTransitive(a.device, b.device, c.device);
    }
  }

  /** The sign of `DiskOrder` is antisymmetric. */
  lemma DiskOrderAntisymmetric(a: Disk, b: Disk)
    requires Fits(a, b)
    ensures DiskOrder(a, b) <= 0 <==> DiskOrder(b, a) >= 0
    ensures DiskOrder(a, b) >= 0 <==> DiskOrder(b, a) <= 0
  {
    CompareAntisymmetric(a.device, b.device);
  }

  /** Zero means equal keys. */
  lemma DiskOrderZero(a: Disk, b: Disk)
    requires Fits(a, b)
    ensures DiskOrder(a, b) == 0 <==> SameKey(a, b)
  {
    CompareAntisymmetric(a.device, b.device);
  }

  lemma DiskOrderTransitive(a: Disk, b: Disk, c: Disk)
    requires Fits(a, b) && Fits(b, c) && Fits(a, c)
    requires DiskOrder(a, b) <= 0 && DiskOrder(b, c) <= 0
    ensures DiskOrder(a, c) <= 0
  {
    OrderIsPlain(a, b);
    OrderIsPlain(b, c);
    OrderIsPlain(a, c);
    PlainTransitive(a, b, c);
  }

  /** Lower positions first, a disk with a position before one without, then device names as in a dictionary. */
  lemma DiskOrderExactly(a: Disk, b: Disk)
    requires Fits(a, b)
    ensures var (p, q) := (ParseDiskPosition(a.position), ParseDiskPosition(b.position));
            DiskOrder(a, b) < 0 <==>
              || (p.Some? && q.Some? && p.value < q.value)
              || (p.Some? && q.None?)
              || (p == q && exists k: nat :: Before(a.device, b.device, k))
  {
    CompareIsDictionary(a.device, b.device);
  }

  /** `DiskOrder` is a total preorder wherever the differences of the positions fit. */
  lemma DiskOrderIsPreorder(a: Disk, b: Disk, c: Disk)
    requires Fits(a, b) && Fits(b, c) && Fits(a, c)
    ensures DiskOrder(a, b) <= 0 <==> DiskOrder(b, a) >= 0
    ensures DiskOrder(a, b) == 0 <==> SameKey(a, b)
    ensures DiskOrder(a, b) <= 0 && DiskOrder(b, c) <= 0 ==> DiskOrder(a, c) <= 0
  {
    DiskOrderAntisymmetric(a, b);
    DiskOrderZero(a, b);
    if DiskOrder(a, b) <= 0 && DiskOrder(b, c) <= 0 {
      DiskOrderTransitive(a, b, c);
    }
  }

  /** Two different positions come out in their own order exactly when their difference fits 64 bits. */
  lemma DiskOrderOverflows(a: Disk, b: Disk)
    requires ParseDiskPosition(a.position).Some? && ParseDiskPosition(b.position).Some?
    requires ParseDiskPosition(a.position) != ParseDiskPosition(b.position)
    ensures var p, q := ParseDiskPosition(a.position).value, ParseDiskPosition(b.position).value;
            (DiskOrder(a, b) < 0 <==> p < q) <==> MIN_INT <= p - q <= MAX_INT
  {
  }

  lemma Zero(s: string)
    requires forall c <- s :: IsDigit(c)
    ensures forall c <- s + "0" :: IsDigit(c)
    ensures DigitsValue(s + "0") == 10 * DigitsValue(s)
  {
    assert (s + "0")[..|s|] == s;
  }

  lemma ThreeZeros(s: string)
    requires forall c <- s :: IsDigit(c)
    ensures forall c <- s + "000" :: IsDigit(c)
    ensures DigitsValue(s + "000") == 1000 * DigitsValue(s)
  {
    Zero(s);
    Zero(s + "0");
    Zero(s + "00");
    assert s + "0" + "0" == s + "00" && s + "00" + "0" == s + "000";
  }

  const GREAT := "9000000000000000000"

  lemma GreatValue()
    ensures forall c <- GREAT :: IsDigit(c)
    ensures DigitsValue(GREAT) == 9_000_000_000_000_000_000
  {
    ThreeZeros("9");
    ThreeZeros("9" + "000");
    ThreeZeros("9" + "000" + "000");
    ThreeZeros("9" + "000" + "000" + "000");
    ThreeZeros("9" + "000" + "000" + "000" + "000");
    ThreeZeros("9" + "000" + "000" + "000" + "000" + "000");
    assert GREAT == "9" + "000" + "000" + "000" + "000" + "000" + "000";
    assert DigitsValue("9") == 9;
  }

  /** Such positions exist: here the greater one comes first. */
  lemma DiskOrderOverflowExample(a: Disk, b: Disk)
    requires a.position == GREAT && b.position == "-" + GREAT
    ensures ParseDiskPosition(a.position) == Some(9_000_000_000_000_000_000)
    ensures ParseDiskPosition(b.position) == Some(-9_000_000_000_000_000_000)
    ensures DiskOrder(a, b) < 0
  {
    GreatValue();
    assert b.position[1..] == GREAT;
  }

  // ---------------------------------------------------------------------------
  // The choice
  // ---------------------------------------------------------------------------

  function Lower(s: string): string {
    seq(|s|, i requires 0 <= i < |s| => if 'A' <= s[i] <= 'Z' then s[i] + ' ' else s[i])
  }

  /** The cloud-init config drive, known by its name label. */
  predicate IsCloudConfigDrive(d: Disk) {
    Contains(Lower(d.nameLabel), "cloudconfigdrive") || Contains(Lower(d.nameLabel), "cloud config drive")
  }

  /** The text, in any case. */
  predicate Folded(s: string, part: string, i: int) {
    && 0 <= i <= |s| - |part|
    && forall j :: 0 <= j < |part| ==>
         s[i + j] == part[j] || ('a' <= part[j] <= 'z' && s[i + j] as int + 32 == part[j] as int)
  }

  lemma LowerFolds(s: string, part: string, i: int)
    requires forall c <- part :: !('A' <= c <= 'Z')
    ensures PartAt(Lower(s), part, i) <==> Folded(s, part, i)
  {
    if 0 <= i <= |s| - |part| {
      SliceIs(Lower(s), part, i);
      forall j | 0 <= j < |part|
        ensures Lower(s)[i + j] == part[j] <==>
                s[i + j] == part[j] || ('a' <= part[j] <= 'z' && s[i + j] as int + 32 == part[j] as int)
      {
        assert part[j] in part;
        LowerChar(s, i + j);
      }
    }
  }

  lemma SliceIs(s: string, part: string, i: nat)
    requires i + |part| <= |s|
    ensures s[i..i + |part|] == part <==> forall j :: 0 <= j < |part| ==> s[i + j] == part[j]
  {
    var t := s[i..i + |part|];
    assert forall j {:trigger t[j]} :: 0 <= j < |part| ==> t[j] == s[i + j];
    if forall j :: 0 <= j < |part| ==> s[i + j] == part[j] {
      assert t == part;
    }
  }

  lemma LowerChar(s: string, k: nat)
    requires k < |s|
    ensures 'A' <= s[k] <= 'Z' ==> Lower(s)[k] as int == s[k] as int + 32
    ensures !('A' <= s[k] <= 'Z') ==> Lower(s)[k] == s[k]
  {
  }

  /** A config drive is one whose name label holds one of the two names, in any case. */
  lemma ConfigDriveExactly(d: Disk)
    ensures IsCloudConfigDrive(d) <==>
              exists i: int ::
                Folded(d.nameLabel, "cloudconfigdrive", i) || Folded(d.nameLabel, "cloud config drive", i)
  {
    var s := d.nameLabel;
    forall i: int ensures PartAt(Lower(s), "cloudconfigdrive", i) <==> Folded(s, "cloudconfigdrive", i) {
      LowerFolds(s, "cloudconfigdrive", i);
    }
    forall i: int ensures PartAt(Lower(s), "cloud config drive", i) <==> Folded(s, "cloud config drive", i) {
      LowerFolds(s, "cloud config drive", i);
    }
  }

  predicate Eligible(d: Disk) {
    !d.isCdDrive && !IsCloudConfigDrive(d)
  }

  /** The eligible bootable disk at k, none before it. */
  predicate BootableAt(disks: seq<Disk>, k: int, d: Disk) {
    && 0 <= k < |disks| && disks[k] == d && Eligible(d) && d.bootable
    && forall l :: 0 <= l < k ==> !(Eligible(disks[l]) && disks[l].bootable)
  }

  /** The first eligible bootable disk. */
  function FirstBootable(disks: seq<Disk>): (r: Option<Disk>)
    ensures r.None? <==> forall d <- disks :: !(Eligible(d) && d.bootable)
    ensures r.Some? ==> exists k :: BootableAt(disks, k, r.value)
  {
    if disks == [] then None
    else if Eligible(disks[0]) && disks[0].bootable then
      assert BootableAt(disks, 0, disks[0]);
      Some(disks[0])
    else
      var r := FirstBootable(disks[1..]);
      assert r.Some? ==> forall k :: BootableAt(disks[1..], k, r.value) ==> BootableAt(disks, k + 1, r.value);
      r
  }

  predicate AllFit(disks: seq<Disk>) {
    forall d, e :: d in disks && e in disks ==> Fits(d, e)
  }

  /** The best disk after looking at d. */
  function Better(best: Option<Disk>, d: Disk): Option<Disk> {
    if Eligible(d) && (best.None? || DiskOrder(d, best.value) < 0) then Some(d) else best
  }

  /** The scan for the lowest disk, from the best one so far: the earlier of two equals stays. */
  function BestOf(best: Option<Disk>, disks: seq<Disk>): Option<Disk>
    decreases |disks|
  {
    if disks == [] then best
    else
      BestOf(Better(best, disks[0]), disks[1..])
  }

  function MainDisk(disks: seq<Disk>): Option<Disk> {
    if |disks| == 0 then None
    else if |disks| == 1 then Some(disks[0])
    else if FirstBootable(disks).Some? then FirstBootable(disks)
    else BestOf(None, disks)
  }

  /** findMainDisk: vm_ops.go:274-300. */
  method FindMainDisk(disks: seq<Disk>) returns (best: Option<Disk>)
    ensures best == MainDisk(disks)
  {
    if |disks| == 0 {
      return None;
    }
    if |disks| == 1 {
      return Some(disks[0]);
    }
    for i := 0 to |disks|
      invariant FirstBootable(disks[i..]) == FirstBootable(disks)
    {
      assert disks[i..][1..] == disks[i + 1..];
      if disks[i].isCdDrive || IsCloudConfigDrive(disks[i]) {
        continue;
      }
      if disks[i].bootable {
        return Some(disks[i]);
      }
    }
    best := None;
    for i := 0 to |disks|
      invariant BestOf(best, disks[i..]) == BestOf(None, disks)
    {
      assert disks[i..][1..] == disks[i + 1..];
      if disks[i].isCdDrive || IsCloudConfigDrive(disks[i]) {
        continue;
      }
      if best.None? || DiskOrder(disks[i], best.value) < 0 {
        best := Some(disks[i]);
      }
    }
  }

  lemma {:induction false} BestOfMember(best: Option<Disk>, disks: seq<Disk>)
    ensures var r := BestOf(best, disks);
            && (r.None? <==> best.None? && forall d <- disks :: !Eligible(d))
            && (r.Some? ==> r == best || (r.value in disks && Eligible(r.value)))
    decreases |disks|
  {
    if disks != [] {
      var d := disks[0];
      BestOfMember(Better(best, d), disks[1..]);
      assert disks == [d] + disks[1..];
    }
  }

  /** A single disk is the choice whatever it is; a bootable one, the first of them, comes before all the others. */
  lemma ChoiceByPriority(disks: seq<Disk>)
    ensures |disks| == 0 ==> MainDisk(disks) == None
    ensures |disks| == 1 ==> MainDisk(disks) == Some(disks[0])
    ensures |disks| >= 2 && (exists d <- disks :: !d.isCdDrive && !IsCloudConfigDrive(d) && d.bootable) ==>
              MainDisk(disks).Some? && exists k :: BootableAt(disks, k, MainDisk(disks).value)
  {
  }

  /** Of two or more disks the choice is never a CD or config drive, and there is none exactly when all are such. */
  lemma MainDiskIsEligible(disks: seq<Disk>)
    requires |disks| >= 2
    ensures MainDisk(disks).None? <==> forall d <- disks :: d.isCdDrive || IsCloudConfigDrive(d)
    ensures var r := MainDisk(disks);
            r.Some? ==> r.value in disks && !r.value.isCdDrive && !IsCloudConfigDrive(r.value)
  {
    BestOfMember(None, disks);
  }

  /** d comes before every eligible disk. */
  predicate Lowest(disks: seq<Disk>, d: Disk) {
    forall e <- disks :: Eligible(e) ==> DiskOrder(d, e) <= 0
  }

  /** It comes before d, if d is eligible, and before the best one so far. */
  lemma BetterIsLower(best: Option<Disk>, d: Disk)
    requires best.Some? ==> Fits(d, best.value)
    ensures var next := Better(best, d);
            && (Eligible(d) ==> next.Some? && DiskOrder(next.value, d) <= 0)
            && (best.Some? ==> next.Some? && DiskOrder(next.value, best.value) <= 0)
  {
    DiskOrderZero(d, d);
    if best.Some? {
      DiskOrderZero(best.value, best.value);
      DiskOrderAntisymmetric(d, best.value);
    }
  }

  lemma {:induction false} BestOfLowest(best: Option<Disk>, disks: seq<Disk>, all: set<Disk>)
    requires forall d, e :: d in all && e in all ==> Fits(d, e)
    requires (forall d <- disks :: d in all) && (best.Some? ==> best.value in all)
    ensures var r := BestOf(best, disks);
            r.Some? ==> r.value in all && Lowest(disks, r.value) && (best.Some? ==> DiskOrder(r.value, best.value) <= 0)
    decreases |disks|
  {
    if disks == [] {
      if best.Some? {
        DiskOrderZero(best.value, best.value);
      }
    } else {
      var (d, r, next) := (disks[0], BestOf(best, disks), Better(best, disks[0]));
      BestOfMember(next, disks[1..]);
      BestOfLowest(next, disks[1..], all);
      BetterIsLower(best, d);
      assert disks == [d] + disks[1..];
      if next.Some? && Eligible(d) {
        DiskOrderTransitive(r.value, next.value, d);
      }
      if best.Some? {
        DiskOrderTransitive(r.value, next.value, best.value);
      }
    }
  }

  lemma {:induction false} LowestStays(d: Disk, disks: seq<Disk>)
    requires Lowest(disks, d) && AllFit([d] + disks)
    ensures BestOf(Some(d), disks) == Some(d)
  {
    if disks != [] {
      assert disks[0] in disks && disks[0] in [d] + disks && d in [d] + disks;
      assert forall e <- [d] + disks[1..] :: e in [d] + disks;
      if Eligible(disks[0]) {
        DiskOrderAntisymmetric(d, disks[0]);
      }
      LowestStays(d, disks[1..]);
    }
  }

  /** The disk at k is eligible, and every eligible disk before it comes after it in the order. */
  predicate FirstLowestAt(disks: seq<Disk>, k: int, d: Disk) {
    && 0 <= k < |disks| && disks[k] == d && Eligible(d) && Lowest(disks, d)
    && forall l :: 0 <= l < k && Eligible(disks[l]) ==> DiskOrder(d, disks[l]) < 0
  }

  lemma {:induction false} BestOfFirst(best: Option<Disk>, disks: seq<Disk>, all: set<Disk>)
    requires forall d, e :: d in all && e in all ==> Fits(d, e)
    requires (forall d <- disks :: d in all) && (best.Some? ==> best.value in all)
    ensures var r := BestOf(best, disks);
            r.Some? && r != best ==>
              && (best.Some? ==> DiskOrder(r.value, best.value) < 0)
              && exists k :: FirstLowestAt(disks, k, r.value)
    decreases |disks|
  {
    if disks != [] {
      var (d, r, next) := (disks[0], BestOf(best, disks), Better(best, disks[0]));
      BestOfMember(next, disks[1..]);
      BestOfLowest(best, disks, all);
      BestOfFirst(next, disks[1..], all);
      assert forall e <- disks[1..] :: e in all;
      if r.Some? && r != best {
        if r == next {
          assert FirstLowestAt(disks, 0, d);
        } else {
          FirstAfter(best, disks, r.value, all);
        }
      }
    }
  }

  lemma FirstAfter(best: Option<Disk>, disks: seq<Disk>, r: Disk, all: set<Disk>)
    requires forall d, e :: d in all && e in all ==> Fits(d, e)
    requires disks != [] && (forall d <- disks :: d in all) && (best.Some? ==> best.value in all) && r in all
    requires Lowest(disks, r) && exists k :: FirstLowestAt(disks[1..], k, r)
    requires Better(best, disks[0]).Some? ==> DiskOrder(r, Better(best, disks[0]).value) < 0
    ensures best.Some? ==> DiskOrder(r, best.value) < 0
    ensures exists k :: FirstLowestAt(disks, k, r)
  {
    var (d, next) := (disks[0], Better(best, disks[0]));
    BetterIsLower(best, d);
    if next.Some? {
      if Eligible(d) {
        StrictlyBefore(r, next.value, d);
      }
      if best.Some? {
        StrictlyBefore(r, next.value, best.value);
      }
    }
    var k :| FirstLowestAt(disks[1..], k, r);
    assert FirstLowestAt(disks, k + 1, r);
  }

  lemma StrictlyBefore(a: Disk, b: Disk, c: Disk)
    requires Fits(a, b) && Fits(b, c) && Fits(a, c)
    requires DiskOrder(a, b) < 0 && DiskOrder(b, c) <= 0
    ensures DiskOrder(a, c) < 0
  {
    DiskOrderTransitive(a, b, c);
    if DiskOrder(a, c) == 0 {
      DiskOrderZero(a, c);
      DiskOrderZero(c, a);
      DiskOrderTransitive(b, c, a);
      DiskOrderAntisymmetric(a, b);
    }
  }

  /** Without a bootable disk the choice is the first of the lowest ones. */
  lemma ChoiceIsFirstLowest(disks: seq<Disk>)
    requires |disks| >= 2 && AllFit(disks) && FirstBootable(disks).None? && MainDisk(disks).Some?
    ensures exists k :: FirstLowestAt(disks, k, MainDisk(disks).value)
  {
    BestOfFirst(None, disks, set d | d in disks);
  }

  /** A disk that some order of the list makes the choice. */
  ghost predicate Candidate(disks: seq<Disk>, d: Disk) {
    && d in disks
    && (|disks| == 1 || (Eligible(d) && (d.bootable || (FirstBootable(disks).None? && Lowest(disks, d)))))
  }

  /** The choice is a candidate, and there is one whenever there are candidates. */
  lemma ChoiceIsCandidate(disks: seq<Disk>)
    requires AllFit(disks)
    ensures MainDisk(disks).Some? ==> Candidate(disks, MainDisk(disks).value)
    ensures MainDisk(disks).None? ==> forall d :: !Candidate(disks, d)
  {
    BestOfMember(None, disks);
    BestOfLowest(None, disks, set d | d in disks);
  }

  lemma FirstCandidateIsChosen(d: Disk, rest: seq<Disk>)
    requires AllFit([d] + rest) && Candidate([d] + rest, d)
    ensures MainDisk([d] + rest) == Some(d)
  {
    var disks := [d] + rest;
    assert disks[1..] == rest;
    if |disks| > 1 && !d.bootable {
      assert forall e <- rest :: e in disks;
      LowestStays(d, rest);
    }
  }

  lemma MoveToFront(disks: seq<Disk>, i: nat)
    requires i < |disks|
    ensures multiset([disks[i]] + (disks[..i] + disks[i + 1..])) == multiset(disks)
  {
    assert disks == disks[..i] + [disks[i]] + disks[i + 1..];
  }

  /** Every candidate is the choice once it is listed first. */
  lemma CandidateCanBeChosen(disks: seq<Disk>, d: Disk) returns (others: seq<Disk>)
    requires AllFit(disks) && Candidate(disks, d)
    ensures multiset(others) == multiset(disks) && MainDisk(others) == Some(d)
  {
    var i :| 0 <= i < |disks| && disks[i] == d;
    var rest := disks[..i] + disks[i + 1..];
    others := [d] + rest;
    MoveToFront(disks, i);
    SameMembers(disks, others);
    FirstCandidateIsChosen(d, rest);
  }

  lemma SameMembers(disks: seq<Disk>, others: seq<Disk>)
    requires multiset(disks) == multiset(others)
    ensures |disks| == |others| && forall d :: d in disks <==> d in others
    ensures forall d :: Candidate(disks, d) <==> Candidate(others, d)
  {
    assert |multiset(disks)| == |disks| && |multiset(others)| == |others|;
    assert forall d :: d in disks <==> d in multiset(disks);
    assert forall d :: d in others <==> d in multiset(others);
  }

  ghost predicate OrderFree(disks: seq<Disk>) {
    forall others :: multiset(others) == multiset(disks) ==> MainDisk(others) == MainDisk(disks)
  }

  /** The order in which the API lists the disks does not matter, exactly when there is at most one candidate. */
  lemma MainDiskOfAnyOrder(disks: seq<Disk>)
    requires AllFit(disks)
    ensures OrderFree(disks) <==> forall d, e :: Candidate(disks, d) && Candidate(disks, e) ==> d == e
  {
    if OrderFree(disks) {
      forall d, e | Candidate(disks, d) && Candidate(disks, e) ensures d == e {
        var first := CandidateCanBeChosen(disks, d);
        var second := CandidateCanBeChosen(disks, e);
      }
    }
    if forall d, e :: Candidate(disks, d) && Candidate(disks, e) ==> d == e {
      forall others | multiset(others) == multiset(disks) ensures MainDisk(others) == MainDisk(disks) {
        SameMembers(disks, others);
        ChoiceIsCandidate(disks);
        ChoiceIsCandidate(others);
      }
    }
  }

  /** One bootable disk at most and distinct keys are enough. */
  lemma DistinctKeysSuffice(disks: seq<Disk>)
    requires AllFit(disks)
    requires forall d, e :: d in disks && e in disks && Eligible(d) && Eligible(e) ==>
               (d.bootable && e.bootable) || SameKey(d, e) ==> d == e
    ensures OrderFree(disks)
  {
    forall d, e | Candidate(disks, d) && Candidate(disks, e) ensures d == e {
      DiskOrderAntisymmetric(d, e);
      DiskOrderZero(d, e);
    }
    MainDiskOfAnyOrder(disks);
  }
}
