/**
 The standard FITS writer (writers/fits/standard.py): names that do not collide, and which sample of the recording ends
 up where in the image. Headers and the calibration formulas are not modelled; the latter are functions given from
 outside, from a byte and a coefficient to a byte.
 */
module RecordingFiles {
  import opened Wrappers
  import opened Decimal

  type Byte = b: int | 0 <= b < 256

  datatype Unit = Raw | Db | Sfu | Kelvin

  datatype Formulas = Formulas(toSfu: (Byte, int) -> Byte, toKelvin: (Byte, int) -> Byte)

  /** `stem` is the name that instrument, start and focus code give, without its `.fit`. */
  datatype Recording = Recording(
    stem: string, channels: seq<real>, frames: seq<seq<Byte>>, rate: real, unit: Unit, coefficients: Option<seq<int>>)

  /** The image by rows, and its two axes. */
  datatype Fits = Fits(image: seq<seq<Byte>>, times: seq<real>, frequencies: seq<real>)

  const SUFFIX := ".fit"
  const TEMPORARY := ".tmp"

  // ---- Names ----

  const COLLISIONS: nat := 1000

  /** The name without a number, and the numbered ones. */
  function Candidate(stem: string, i: nat): string {
    if i == 0 then stem + SUFFIX else stem + ['_'] + Padded(i, 2) + SUFFIX
  }

  /** The first free candidate from number `i` on; the plain name when none is free. */
  function FreeFrom<T>(files: map<string, T>, stem: string, i: nat): string
    decreases COLLISIONS - i
  {
    if i >= COLLISIONS then Candidate(stem, 0)
    else if Candidate(stem, i) !in files then Candidate(stem, i)
    else FreeFrom(files, stem, i + 1)
  }

  function UniqueName<T>(files: map<string, T>, stem: string): string { FreeFrom(files, stem, 0) }

  method UniquePath<T>(files: map<string, T>, stem: string) returns (name: string)
    ensures name == UniqueName(files, stem)
  {
    hide Candidate;
    if Candidate(stem, 0) !in files {
      return Candidate(stem, 0);
    }
    for i := 1 to COLLISIONS
      invariant UniqueName(files, stem) == FreeFrom(files, stem, i)
    {
      var candidate := Candidate(stem, i);
      if candidate !in files {
        return candidate;
      }
    }
    name := Candidate(stem, 0);
  }

  /** Some of the candidates is free. */
  predicate Room<T>(files: map<string, T>, stem: string) {
    exists i :: 0 <= i < COLLISIONS && Candidate(stem, i) !in files
  }

  /** The search ends with a free candidate, or with the plain name when all are taken. */
  lemma {:induction false} SearchFinds<T>(files: map<string, T>, stem: string, i: nat) returns (k: nat)
    requires i <= COLLISIONS
    ensures k < COLLISIONS && FreeFrom(files, stem, i) == Candidate(stem, k)
    ensures Candidate(stem, k) !in files || (k == 0 && forall m :: i <= m < COLLISIONS ==> Candidate(stem, m) in files)
    ensures forall m :: i <= m < k ==> Candidate(stem, m) in files
    decreases COLLISIONS - i
  {
    hide Candidate;
    if i == COLLISIONS {
      k := 0;
    } else if Candidate(stem, i) !in files {
      k := i;
    } else {
      k := SearchFinds(files, stem, i + 1);
    }
  }

  /** The names that consumers look for. */
  predicate IsProduct(name: string) { |name| >= 4 && name[|name| - 4..] == SUFFIX }

  lemma CandidateIsProduct(stem: string, i: nat)
    ensures IsProduct(Candidate(stem, i))
  {
    var name := Candidate(stem, i);
    assert |SUFFIX| == 4;
    assert name[|name| - 4..] == SUFFIX;
  }

  /** A numbered name is the stem, an underscore and at least two digits that read as the number. */
  lemma CandidateCarriesItsNumber(stem: string, i: nat)
    requires i > 0
    ensures var name := Candidate(stem, i);
      && |name| >= |stem| + 7 && name[..|stem|] == stem && name[|stem|] == '_' && name[|name| - 4..] == ".fit"
      && var digits := name[|stem| + 1..|name| - 4]; 
        AllDigits(digits) && Value(digits) == i && (i < 100 ==> |digits| == 2)
  {
    CandidateIsProduct(stem, i);
    ValueOfPadded(i, 2);
    if i < 100 {
      assert Pow10(2) == 100;
      PaddedFills(i, 2);
    }
    var name := Candidate(stem, i);
    assert name[|stem| + 1..|name| - 4] == Padded(i, 2);
    assert name[..|stem|] == stem;
  }

  lemma CandidatesAreDistinct(stem: string, i: nat, j: nat)
    requires i != j
    ensures Candidate(stem, i) != Candidate(stem, j)
  {
    if i > 0 && j > 0 {
      CandidateCarriesItsNumber(stem, i);
      CandidateCarriesItsNumber(stem, j);
    } else {
      var k := i + j;
      CandidateCarriesItsNumber(stem, k);
      hide AllDigits, Value, Padded;
      assert |Candidate(stem, 0)| == |stem| + 4;
    }
  }

  /**
   The name of a new file: the plain one if it is free, else the one with the smallest free number below 1000, else
   the plain one.
   */
  lemma SmallestFreeNumber<T>(files: map<string, T>, stem: string) returns (k: nat)
    ensures k < 1000 && UniqueName(files, stem) == Candidate(stem, k) && Candidate(stem, 0) == stem + ".fit"
    ensures forall m :: 0 <= m < k ==> Candidate(stem, m) in files
    ensures Candidate(stem, k) in files ==> k == 0 && forall m :: 0 <= m < 1000 ==> Candidate(stem, m) in files
  {
    k := SearchFinds(files, stem, 0);
  }

  /** The chosen name is taken exactly when all candidates are. */
  lemma NameIsTakenExactlyWithoutRoom<T>(files: map<string, T>, stem: string)
    ensures UniqueName(files, stem) in files <==> !Room(files, stem)
  {
    hide Candidate;
    var k := SearchFinds(files, stem, 0);
  }

  // ---- The image ----

  /** Per-channel calibrated samples; `None` is the missing coefficient. */
  function Calibrated(values: seq<Byte>, r: Recording, f: Formulas): Option<seq<Byte>> {
    if r.unit.Raw? || r.unit.Db? || r.coefficients.None? then Some(values)
    else if |r.coefficients.value| < |values| then None
    else Some(seq(|values|, i requires 0 <= i < |values| => CalibratedSample(r, f, i, values[i])))
  }

  /** One sample of one channel. */
  function CalibratedSample(r: Recording, f: Formulas, channel: nat, v: Byte): Byte
    requires r.coefficients.Some? && (r.unit.Sfu? || r.unit.Kelvin?) ==> channel < |r.coefficients.value|
  {
    if r.coefficients.None? then v
    else
      match r.unit
      case Sfu => (f.toSfu)(v, r.coefficients.value[channel])
      case Kelvin => (f.toKelvin)(v, r.coefficients.value[channel])
      case _ => v
  }

  /** All frames have one width, and their samples can be calibrated. */
  predicate Rectangular(r: Recording) {
    && (forall k :: 0 <= k < |r.frames| ==> |r.frames[k]| == |r.frames[0]|)
    && (|r.frames| > 0 ==> |r.frames[0]| > 0)
    && (r.coefficients.Some? && (r.unit.Sfu? || r.unit.Kelvin?) ==>
          forall k :: 0 <= k < |r.frames| ==> |r.frames[k]| <= |r.coefficients.value|)
  }

  /** The samples by frame, then by channel. */
  function Samples(r: Recording, f: Formulas): (rows: seq<seq<Byte>>)
    requires Rectangular(r)
    ensures |rows| == |r.frames| && forall k :: 0 <= k < |rows| ==> |rows[k]| == |r.frames[k]|
  {
    seq(|r.frames|, k requires 0 <= k < |r.frames| => Calibrated(r.frames[k], r, f).value)
  }

  function Transposed(rows: seq<seq<Byte>>): (cols: seq<seq<Byte>>)
    requires rows != [] && forall k :: 0 <= k < |rows| ==> |rows[k]| == |rows[0]|
    ensures |cols| == |rows[0]|
  {
    seq(|rows[0]|, c requires 0 <= c < |rows[0]| => seq(|rows|, k requires 0 <= k < |rows| => rows[k][c]))
  }

  function Flipped<T>(s: seq<T>): (r: seq<T>)
    ensures |r| == |s|
    ensures forall i :: 0 <= i < |s| ==> r[i] == s[|s| - 1 - i]
  {
    if s == [] then [] else Flipped(s[1..]) + [s[0]]
  }

  /** The file of a recording; `None` when the source raises before it writes anything. */
  function Rendered(r: Recording, f: Formulas): Option<Fits> {
    if r.frames == [] || r.channels == [] || !Rectangular(r) then None
    else
      var dt := if r.rate == 0.0 then 0.0 else 1.0 / r.rate;
      Some(Fits(Flipped(Transposed(Samples(r, f))), seq(|r.frames|, k => k as real * dt), Flipped(r.channels)))
  }

  /** The unit asks for coefficients, and there are some. */
  predicate UsesCoefficients(r: Recording) { r.coefficients.Some? && r.unit in {Sfu, Kelvin} }

  /** Nothing to write, or something that numpy cannot stack or the calibration cannot look up. */
  ghost predicate Unwritable(r: Recording) {
    || |r.frames| == 0 || |r.channels| == 0 || |r.frames[0]| == 0
    || (exists k :: 0 < k < |r.frames| && |r.frames[k]| != |r.frames[0]|)
    || (UsesCoefficients(r) && |r.coefficients.value| < |r.frames[0]|)
  }

  /** No file is written exactly for what cannot be written. */
  lemma NoFileExactlyForUnwritable(r: Recording, f: Formulas)
    ensures Rendered(r, f).None? <==> Unwritable(r)
  {
    if !Unwritable(r) {
      assert forall k :: 0 <= k < |r.frames| ==> |r.frames[k]| == |r.frames[0]|;
    }
  }

  /** The byte `b` for the sample `v` of a channel. */
  predicate IsCalibrated(r: Recording, f: Formulas, channel: nat, v: Byte, b: Byte) {
    && (!UsesCoefficients(r) ==> b == v)
    && (UsesCoefficients(r) ==>
          && channel < |r.coefficients.value|
          && (r.unit == Sfu ==> b == (f.toSfu)(v, r.coefficients.value[channel]))
          && (r.unit == Kelvin ==> b == (f.toKelvin)(v, r.coefficients.value[channel])))
  }

  /** The time of column `k`: `k / rate`, or 0 without a rate. */
  predicate StandsAt(time: real, rate: real, k: nat) {
    if rate == 0.0 then time == 0.0 else time * rate == k as real
  }

  /**
   Row `i` of the image holds, for every frame, the calibrated sample of the channel whose frequency is entry `i` of
   the axis; frame `k` stands at the time `k / rate`.
   */
  lemma RowsFollowTheAxis(r: Recording, f: Formulas, i: nat, k: nat)
    requires Rendered(r, f).Some? && |r.frames[0]| == |r.channels|
    requires i < |r.channels| && k < |r.frames|
    ensures var fits, channel := Rendered(r, f).value, |r.channels| - 1 - i;
      && |fits.image| == |fits.frequencies| == |r.channels| && |fits.image[i]| == |fits.times| == |r.frames|
      && fits.frequencies[i] == r.channels[channel]
      && IsCalibrated(r, f, channel, r.frames[k][channel], fits.image[i][k])
    ensures StandsAt(Rendered(r, f).value.times[k], r.rate, k)
  {
    TimesFollowTheRate(r, f, k);
    hide IsCalibrated, CalibratedSample, Calibrated, StandsAt;
    RowsFollowTheChannels(r, f, i, k);
    hide Samples, Transposed, Flipped, Rectangular;
  }

  lemma RowsFollowTheChannels(r: Recording, f: Formulas, i: nat, k: nat)
    requires r.frames != [] && Rectangular(r) && |r.frames[0]| == |r.channels|
    requires i < |r.channels| && k < |r.frames|
    ensures var image, channel := Flipped(Transposed(Samples(r, f))), |r.channels| - 1 - i;
      && |image| == |r.channels| && |image[i]| == |r.frames|
      && IsCalibrated(r, f, channel, r.frames[k][channel], image[i][k])
  {
    var rows := Samples(r, f);
    var cols := Transposed(rows);
    var channel := |r.channels| - 1 - i;
    assert Flipped(cols)[i] == cols[channel];
    assert cols[channel][k] == rows[k][channel];
  }

  lemma Regrouped(x: real, y: real, z: real)
    requires y * z == 1.0
    ensures (x * y) * z == x
  {
    assert (x * y) * z == x * (y * z);
  }

  lemma TimesFollowTheRate(r: Recording, f: Formulas, k: nat)
    requires Rendered(r, f).Some? && k < |r.frames|
    ensures StandsAt(Rendered(r, f).value.times[k], r.rate, k)
  {
    hide Samples, Transposed, Flipped, Rectangular;
    if r.rate != 0.0 {
      var dt := 1.0 / r.rate;
      assert dt * r.rate == 1.0;
      Regrouped(k as real, dt, r.rate);
    }
  }

  // ---- Writing ----

  function Stored(files: map<string, Fits>, r: Recording, fits: Fits): map<string, Fits> {
    var name := UniqueName(files, r.stem);
    (files - {name + TEMPORARY})[name := fits]
  }

  function Written(files: map<string, Fits>, r: Recording, f: Formulas): map<string, Fits> {
    var fits := Rendered(r, f);
    if fits.None? then files else Stored(files, r, fits.value)
  }

  class OutputDirectory {
    var files: map<string, Fits>

    /** Writes under a temporary name, then renames. */
    method Write(r: Recording, f: Formulas) returns (name: Option<string>)
      modifies this
      ensures files == Written(old(files), r, f)
      ensures name == if Rendered(r, f).None? then None else Some(UniqueName(old(files), r.stem))
    {
      if r.frames == [] || r.channels == [] {
        return None;
      }
      var fits := Rendered(r, f);
      if fits.None? {
        return None;
      }
      var path := UniquePath(files, r.stem);
      var tmp := path + TEMPORARY;
      files := files[tmp := fits.value];
      files := (files - {tmp})[path := fits.value];
      assert files == Stored(old(files), r, fits.value);
      name := Some(path);
    }
  }

  function WrittenAll(files: map<string, Fits>, rs: seq<Recording>, f: Formulas): map<string, Fits>
    decreases |rs|
  {
    if rs == [] then files else WrittenAll(Written(files, rs[0], f), rs[1..], f)
  }

  /** At every write some candidate name is free. */
  predicate RoomForAll(files: map<string, Fits>, rs: seq<Recording>, f: Formulas)
    decreases |rs|
  {
    rs == [] || (Room(files, rs[0].stem) && RoomForAll(Written(files, rs[0], f), rs[1..], f))
  }

  lemma TemporaryIsNoProduct(name: string)
    ensures !IsProduct(name + TEMPORARY)
  {
    var t := name + TEMPORARY;
    assert t[|t| - 4..] == TEMPORARY;
    assert TEMPORARY[1] == 't' && SUFFIX[1] == 'f';
  }

  /** One write leaves every product as it was, and adds its own under a new name. */
  lemma WriteOnlyAdds(files: map<string, Fits>, r: Recording, f: Formulas, name: string)
    requires Room(files, r.stem) && name in files && IsProduct(name)
    ensures name in Written(files, r, f) && Written(files, r, f)[name] == files[name]
    ensures var added := UniqueName(files, r.stem);
      Rendered(r, f).Some? ==> (added !in files && IsProduct(added) && added in Written(files, r, f)
                                && Written(files, r, f)[added] == Rendered(r, f).value)
  {
    var k := SearchFinds(files, r.stem, 0);
    CandidateIsProduct(r.stem, k);
    assert UniqueName(files, r.stem) == Candidate(r.stem, k);
    hide Rendered, Room, IsProduct, UniqueName, Candidate;
    NameIsTakenExactlyWithoutRoom(files, r.stem);
    TemporaryIsNoProduct(UniqueName(files, r.stem));
  }

  /** Files on disk: any sequence of writes only adds names and never changes an earlier product. */
  lemma {:induction false} WritesOnlyAdd(files: map<string, Fits>, rs: seq<Recording>, f: Formulas, name: string)
    requires RoomForAll(files, rs, f) && name in files && IsProduct(name)
    ensures name in WrittenAll(files, rs, f) && WrittenAll(files, rs, f)[name] == files[name]
    decreases |rs|
  {
    hide Written, Room, IsProduct;
    if rs != [] {
      WriteOnlyAdds(files, rs[0], f, name);
      WritesOnlyAdd(Written(files, rs[0], f), rs[1..], f, name);
    }
  }

  /** Without room, a recording that can be written replaces the oldest of its name. */
  lemma FullNamesAreOverwritten(files: map<string, Fits>, r: Recording, f: Formulas)
    requires !Room(files, r.stem) && Rendered(r, f).Some?
    ensures var name := Candidate(r.stem, 0);
      name in files && name in Written(files, r, f) && Written(files, r, f)[name] == Rendered(r, f).value
  {
    hide Candidate, Rendered;
    var k := SearchFinds(files, r.stem, 0);
  }
}
