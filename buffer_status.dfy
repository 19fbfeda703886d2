/**
 * The Queue Size subfield of the QoS Control field (IEEE Std 802.11-2020,
 * section 9.2.4.5.6) as the schedulers decode a station's buffer-status
 * report: 0 is an empty buffer, 1..253 count units of 256 octets, 254 means
 * "more than can be expressed" and 255 means "unspecified or unknown".
 * The schedulers fold the reports of their candidates into `maxBufferSize`.
 */
module BufferStatus {

  newtype byte = x: int | 0 <= x < 0x100

  newtype uint32 = x: int | 0 <= x < 0x1_0000_0000

  const NotLimited: byte := 254
  const Unknown: byte := 255
  /** `0xffffffff`, the value `maxBufferSize` takes for a report of 254. */
  const Unbounded: uint32 := 0xffff_ffff

  /**
   * The octets one report stands for in the fold; an unknown status counts
   * as one `UlPsduSize`.
   */
  function Octets(q: byte, ulPsduSize: uint32): uint32
  {
    if q == Unknown then ulPsduSize
    else if q == NotLimited then Unbounded
    else (q as int * 256) as uint32
  }

  function Max(a: uint32, b: uint32): uint32
  {
    if a < b then b else a
  }

  /** `maxBufferSize` after folding the reports left to right, starting from 0. */
  function MaxBuffer(reports: seq<byte>, ulPsduSize: uint32): uint32
  {
    if reports == [] then 0
    else Max(MaxBuffer(reports[..|reports| - 1], ulPsduSize), Octets(reports[|reports| - 1], ulPsduSize))
  }

  /**
   * One step of the fold as the code writes it: 254 assigns 0xffffffff
   * outright, the other reports take a maximum. Both agree with `Max`.
   */
  lemma FoldStep(m: uint32, q: byte, ulPsduSize: uint32)
    ensures Max(m, Octets(q, ulPsduSize)) ==
            (if q == Unknown then Max(m, ulPsduSize)
             else if q == NotLimited then Unbounded
             else Max(m, (q as int * 256) as uint32))
  {
  }

  /** A single report of 254 makes the result 0xffffffff. */
  lemma {:induction false} NotLimitedDominates(reports: seq<byte>, ulPsduSize: uint32)
    requires NotLimited in reports
    ensures MaxBuffer(reports, ulPsduSize) == Unbounded
  {
    var n := |reports|;
    if reports[n - 1] != NotLimited {
      assert NotLimited in reports[..n - 1] by {
        var i :| 0 <= i < n && reports[i] == NotLimited;
        assert reports[..n - 1][i] == NotLimited;
      }
      NotLimitedDominates(reports[..n - 1], ulPsduSize);
    }
  }

  /** The result is the largest decoded report, or 0 when there is none. */
  lemma {:induction false} MaxBufferIsMax(reports: seq<byte>, ulPsduSize: uint32)
    ensures forall i :: 0 <= i < |reports| ==> Octets(reports[i], ulPsduSize) <= MaxBuffer(reports, ulPsduSize)
    ensures MaxBuffer(reports, ulPsduSize) == 0 ||
            exists i :: 0 <= i < |reports| && MaxBuffer(reports, ulPsduSize) == Octets(reports[i], ulPsduSize)
  {
    if reports != [] {
      var n := |reports|;
      var init := reports[..n - 1];
      MaxBufferIsMax(init, ulPsduSize);
      forall i | 0 <= i < n - 1
        ensures Octets(reports[i], ulPsduSize) <= MaxBuffer(reports, ulPsduSize)
      {
        assert init[i] == reports[i];
      }
      if MaxBuffer(reports, ulPsduSize) != Octets(reports[n - 1], ulPsduSize) {
        var i :| 0 <= i < |init| && MaxBuffer(init, ulPsduSize) == Octets(init[i], ulPsduSize);
        assert init[i] == reports[i];
      }
    }
  }

  /**
   * With a non-zero `UlPsduSize`, `maxBufferSize` is positive exactly when
   * some station reported a non-empty buffer.
   */
  lemma {:induction false} MaxBufferPositive(reports: seq<byte>, ulPsduSize: uint32)
    requires ulPsduSize > 0
    ensures MaxBuffer(reports, ulPsduSize) > 0 <==> exists i :: 0 <= i < |reports| && reports[i] != 0
  {
    MaxBufferIsMax(reports, ulPsduSize);
    if exists i :: 0 <= i < |reports| && reports[i] != 0 {
      var i :| 0 <= i < |reports| && reports[i] != 0;
      assert Octets(reports[i], ulPsduSize) > 0;
    }
  }
}
