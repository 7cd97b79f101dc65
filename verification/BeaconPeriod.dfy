/** Estimating the period of a server's beacons and telling anomalies from it. */
module BeaconPeriods {
  import opened Options

  const CA_UINT32_MAX := 0xffff_ffff

  /** How far a sequence number is ahead of the last one, as the program computes it. */
  function SeqAdvance(last: nat, number: nat): int
    requires last <= CA_UINT32_MAX && number <= CA_UINT32_MAX
  {
    if number >= last then number - last else CA_UINT32_MAX - last + number
  }

  /** That is the difference modulo 2 to the 32 as long as the numbers have not gone round, and one
      less when they have: the beacon right after the highest number looks like a repetition. */
  lemma AdvanceIsModular(last: nat, number: nat)
    requires last <= CA_UINT32_MAX && number <= CA_UINT32_MAX
    ensures SeqAdvance(last, number) == (number - last) % 0x1_0000_0000 <==> number >= last
    ensures number < last ==> SeqAdvance(last, number) == (number - last) % 0x1_0000_0000 - 1
    ensures SeqAdvance(CA_UINT32_MAX, 0) == 0
  {
    if number < last {
      assert (number - last) % 0x1_0000_0000 == number - last + 0x1_0000_0000;
    }
  }

  /** A beacon with this advance is taken for a duplicate or for one after a loss. */
  predicate Discarded(advance: int) {
    advance == 0 || advance > CA_UINT32_MAX - 256 || 1 < advance < 4
  }

  /** The advances that count: one, or four and more but for the last 256. */
  lemma DiscardedMeans(advance: int)
    requires 0 <= advance <= CA_UINT32_MAX
    ensures !Discarded(advance) <==> advance == 1 || 4 <= advance <= 0xffff_feff
  {
  }

  predicate TooLate(period: real, average: real) {
    period >= average * 1.25
  }

  predicate TooEarly(period: real, average: real) {
    period <= average * 0.80
  }

  class Bhe {
    var timeStamp: Option<real>
    /** Below zero until two beacons have been seen. */
    var averagePeriod: real
    var lastBeaconNumber: nat
    /** Whether a circuit to the server is open. */
    var circuit: bool
    /** Anomalies found, and beacons the circuit was told looked all right. */
    ghost var anomalies: nat
    ghost var arrivals: nat

    /** An estimator is created with a circuit, and then has no time stamp, or by the first beacon
        of a server, and then has its time and number.  In neither case a circuit is attached yet. */
    constructor (initialTimeStamp: Option<real>, initialBeaconNumber: nat)
      requires initialBeaconNumber <= CA_UINT32_MAX
      ensures timeStamp == initialTimeStamp && averagePeriod < 0.0 && lastBeaconNumber == initialBeaconNumber
      ensures !circuit && anomalies == arrivals == 0
    {
      timeStamp, averagePeriod, lastBeaconNumber, circuit := initialTimeStamp, -1.0, initialBeaconNumber, false;
      anomalies, arrivals := 0, 0;
    }

    /** A circuit to the server opens or closes. */
    method Attach(connected: bool)
      modifies `circuit
      ensures circuit == connected
    {
      circuit := connected;
    }

    method UpdatePeriod(programBeginTime: real, currentTime: real, beaconNumber: nat, v410: bool)
      returns (netChange: bool)
      requires lastBeaconNumber <= CA_UINT32_MAX && beaconNumber <= CA_UINT32_MAX
      modifies this
      ensures circuit == old(circuit) && lastBeaconNumber == if v410 then beaconNumber else old(lastBeaconNumber)
      ensures old(timeStamp).None? ==>
        !netChange && timeStamp == Some(currentTime) && averagePeriod == old(averagePeriod)
        && anomalies == old(anomalies) + 1 && arrivals == old(arrivals)
      ensures old(timeStamp).Some? && v410 && Discarded(SeqAdvance(old(lastBeaconNumber), beaconNumber)) ==>
        !netChange && timeStamp == old(timeStamp) && averagePeriod == old(averagePeriod)
        && anomalies == old(anomalies) && arrivals == old(arrivals)
      ensures old(timeStamp).Some? && !(v410 && Discarded(SeqAdvance(old(lastBeaconNumber), beaconNumber))) ==>
        var (period, average) := (currentTime - old(timeStamp).value, old(averagePeriod));
        && timeStamp == Some(currentTime)
        && averagePeriod == (if average < 0.0 then period else period * 0.125 + average * 0.875)
        && anomalies == old(anomalies) +
           (if average < 0.0 || TooLate(period, average) || TooEarly(period, average) then 1 else 0)
        && arrivals == old(arrivals) +
             (if circuit && average >= 0.0 && !TooLate(period, average) && !TooEarly(period, average) then 1 else 0)
        && (netChange <==> if average < 0.0 then period <= old(timeStamp).value - programBeginTime
             else period >= average * 3.25 || (!TooLate(period, average) && TooEarly(period, average)))
    {
      if timeStamp.None? {
        if v410 {
          lastBeaconNumber := beaconNumber;
        }
        anomalies := anomalies + 1;
        timeStamp := Some(currentTime);
        return false;
      }
      if v410 {
        var beaconSeqAdvance: int;
        if beaconNumber >= lastBeaconNumber {
          beaconSeqAdvance := beaconNumber - lastBeaconNumber;
        } else {
          beaconSeqAdvance := CA_UINT32_MAX - lastBeaconNumber + beaconNumber;
        }
        lastBeaconNumber := beaconNumber;
        if beaconSeqAdvance == 0 || beaconSeqAdvance > CA_UINT32_MAX - 256 {
          return false;
        }
        if beaconSeqAdvance > 1 && beaconSeqAdvance < 4 {
          return false;
        }
      }
      netChange := false;
      var currentPeriod := currentTime - timeStamp.value;
      if averagePeriod < 0.0 {
        anomalies := anomalies + 1;
        averagePeriod := currentPeriod;
        var totalRunningTime := timeStamp.value - programBeginTime;
        if currentPeriod <= totalRunningTime {
          netChange := true;
        }
      } else {
        if currentPeriod >= averagePeriod * 1.25 {
          anomalies := anomalies + 1;
          if currentPeriod >= averagePeriod * 3.25 {
            netChange := true;
          }
        } else if currentPeriod <= averagePeriod * 0.80 {
          anomalies := anomalies + 1;
          netChange := true;
        } else if circuit {
          arrivals := arrivals + 1;
        }
        averagePeriod := currentPeriod * 0.125 + averagePeriod * 0.875;
      }
      timeStamp := Some(currentTime);
    }

    /** The first beacon of a server, wherever the estimator came from: an estimator that the
        beacon created has seen it, one that a circuit created is told of it and says nothing. */
    method FirstBeacon(programBeginTime: real, start: real, first: nat, v410: bool)
      requires averagePeriod < 0.0 && first <= CA_UINT32_MAX && lastBeaconNumber <= CA_UINT32_MAX
      requires timeStamp == None || (timeStamp == Some(start) && (v410 ==> lastBeaconNumber == first))
      modifies this
      ensures timeStamp == Some(start) && averagePeriod < 0.0 && lastBeaconNumber <= CA_UINT32_MAX
      ensures (v410 ==> lastBeaconNumber == first) && circuit == old(circuit) && arrivals == old(arrivals)
      ensures anomalies == old(anomalies) + if old(timeStamp).None? then 1 else 0
    {
      if timeStamp.None? {
        var netChange := UpdatePeriod(programBeginTime, start, first, v410);
        assert !netChange;
      }
    }

    /** A run of beacons whose periods lie between `a` and `b`, less than a quarter apart, and
        whose sequence numbers, if the server sends them, advance by one without going round: the
        average stays between the bounds, and after the second beacon no anomaly and no change of
        the network is ever reported.  The second beacon is taken for a new server exactly when
        its period is not longer than the program had been running. */
    method Watch(programBeginTime: real, start: real, periods: seq<real>, first: nat, v410: bool, a: real, b: real)
      returns (netChanges: seq<bool>)
      requires averagePeriod < 0.0 && first <= CA_UINT32_MAX && lastBeaconNumber <= CA_UINT32_MAX
      requires timeStamp == None || (timeStamp == Some(start) && (v410 ==> lastBeaconNumber == first))
      requires 0.0 < a && b < 1.25 * a && forall i :: 0 <= i < |periods| ==> a <= periods[i] <= b
      requires v410 ==> first + |periods| <= CA_UINT32_MAX
      modifies this
      ensures |netChanges| == |periods| && forall i :: 0 < i < |netChanges| ==> !netChanges[i]
      ensures |periods| > 0 ==> (netChanges[0] <==> periods[0] <= start - programBeginTime)
      ensures |periods| > 0 ==> a <= averagePeriod <= b
      ensures anomalies == old(anomalies) + (if old(timeStamp).None? then 1 else 0) + (if |periods| > 0 then 1 else 0)
      ensures circuit == old(circuit)
      ensures arrivals == old(arrivals) + (if circuit && |periods| > 1 then |periods| - 1 else 0)
    {
      FirstBeacon(programBeginTime, start, first, v410);
      var now := start;
      netChanges := [];
      for i := 0 to |periods|
        invariant timeStamp == Some(now) && (v410 ==> lastBeaconNumber == first + i)
        invariant lastBeaconNumber <= CA_UINT32_MAX && circuit == old(circuit)
        invariant if i == 0 then averagePeriod < 0.0 && now == start else a <= averagePeriod <= b
        invariant |netChanges| == i && forall k :: 0 < k < i ==> !netChanges[k]
        invariant i > 0 ==> (netChanges[0] <==> periods[0] <= start - programBeginTime)
        invariant anomalies == old(anomalies) + (if old(timeStamp).None? then 1 else 0) + (if i > 0 then 1 else 0)
        invariant arrivals == old(arrivals) + (if circuit && i > 1 then i - 1 else 0)
      {
        now := now + periods[i];
        if i > 0 {
          Steady(periods[i], averagePeriod, a, b);
        }
        var netChange := UpdatePeriod(programBeginTime, now, if v410 then first + i + 1 else 0, v410);
        netChanges := netChanges + [netChange];
      }
    }
  }

  /** A period within the bounds is no anomaly and keeps the average within them. */
  lemma Steady(period: real, average: real, a: real, b: real)
    requires 0.0 < a && b < 1.25 * a && a <= period <= b && a <= average <= b
    ensures !TooLate(period, average) && !TooEarly(period, average)
    ensures a <= period * 0.125 + average * 0.875 <= b
  {
  }

  /** A quarter is the most the bounds may lie apart: beyond it a long period after short ones is
      reported as late, and a short one after long ones as early. */
  lemma QuarterIsExact(a: real, b: real)
    requires 0.0 < a <= b
    ensures (forall p: real, q: real :: a <= p <= b && a <= q <= b ==> !TooLate(p, q)) <==> b < 1.25 * a
    ensures (forall p: real, q: real :: a <= p <= b && a <= q <= b ==> !TooEarly(p, q)) <==> a > 0.80 * b
  {
    if b < 1.25 * a {
      forall p: real, q: real | a <= p <= b && a <= q <= b ensures !TooLate(p, q) && !TooEarly(p, q) {
        Steady(p, q, a, b);
      }
    } else {
      assert TooLate(b, a);
      assert TooEarly(a, b);
    }
  }
}
