/** The worker's methods on its status map; each is one step of the model. */
module HistoryWorkerCode {
  import opened Wrappers
  import opened HistoryWorker
  import Decimal

  class Worker {
    var serviceCurrentStatusData: map<string, Status>
    /** The batches for which `aggregateAndWrite` has been started. */
    var started: seq<Batch>

    /** The model's state, given what is in hand. */
    function Model(hands: map<string, Hand>): State
      reads this
    {
      State(serviceCurrentStatusData, hands, started)
    }

    constructor ()
      ensures Model(map[]) == EMPTY
    {
      serviceCurrentStatusData, started := map[], [];
    }

    /** The first half: finds the pile of a point, or makes one. */
    method GetOrCreate(data: Point, now: int) returns (key: string)
      modifies this`serviceCurrentStatusData
      ensures key == KeyOf(data) && key in serviceCurrentStatusData
      ensures forall hands: map<string, Hand> :: key !in hands ==>
                Step(old(Model(hands)), Look(data, now)) == Model(hands[key := Hand(data, None)])
    {
      hide DataKey;
      key := DataKey(data.endpoint, data.instance);
      if key !in serviceCurrentStatusData {
        serviceCurrentStatusData := serviceCurrentStatusData[key := Status([], now)];
      }
    }

    /** The second half, for a pile that is still in the map. */
    method AppendToPile(key: string, data: Point, now: int)
      requires key == KeyOf(data) && key in serviceCurrentStatusData
      modifies this
      ensures forall hands: map<string, Hand> :: key in hands && hands[key] == Hand(data, None) ==>
                Step(old(Model(hands)), Append(data, now)) == Model(hands - {key})
    {
      hide DataKey;
      var result := serviceCurrentStatusData[key].result + [data];
      serviceCurrentStatusData := serviceCurrentStatusData[key := Status(result, now)];
      if |result| >= BATCH {
        TriggerBatchWrite(key);
      }
    }

    /** With nothing in between, a point is looked up and appended. */
    method ProcessMonitoringData(data: Point, now: int)
      modifies this
      ensures Model(map[]) == Step(Step(old(Model(map[])), Look(data, now)), Append(data, now))
    {
      hide DataKey, Step;
      var key := GetOrCreate(data, now);
      ghost var hands: map<string, Hand> := map[][key := Hand(data, None)];
      ghost var between := Model(hands);
      AppendToPile(key, data, now);
      assert hands - {key} == map[];
      assert Step(between, Append(data, now)) == Model(hands - {key});
    }

    method TriggerBatchWrite(key: string)
      requires key in serviceCurrentStatusData
      modifies this
      ensures var result := old(serviceCurrentStatusData)[key].result;
              var emptied := old(serviceCurrentStatusData)[key].(result := []);
              if |result| < BATCH then serviceCurrentStatusData == old(serviceCurrentStatusData) &&
                started == old(started)
              else && serviceCurrentStatusData == old(serviceCurrentStatusData)[key := emptied]
                   && started == old(started) + [Batch(key, result)]
    {
      var status := serviceCurrentStatusData[key];
      if |status.result| < BATCH {
        return;
      }
      started := started + [Batch(key, status.result)];
      serviceCurrentStatusData := serviceCurrentStatusData[key := status.(result := [])];
    }

    method RemoveInstanceStatus(endpoint: int, instance: string)
      modifies this`serviceCurrentStatusData
      ensures forall hands: map<string, Hand> ::
                Step(old(Model(hands)), RemoveInstance(endpoint, instance)).status == serviceCurrentStatusData
      ensures serviceCurrentStatusData == old(serviceCurrentStatusData) - {DataKey(endpoint, instance)}
    {
      serviceCurrentStatusData := serviceCurrentStatusData - {DataKey(endpoint, instance)};
    }

    method RemoveEndpointStatus(endpoint: int)
      modifies this`serviceCurrentStatusData
      ensures forall hands: map<string, Hand> ::
                Step(old(Model(hands)), RemoveEndpoint(endpoint)).status == serviceCurrentStatusData
    {
      hide Decimal.Format;
      var prefix := Decimal.Format(endpoint) + "_";
      var pending := serviceCurrentStatusData.Keys;
      while pending != {}
        invariant pending <= old(serviceCurrentStatusData).Keys
        invariant serviceCurrentStatusData ==
                  map key | key in old(serviceCurrentStatusData) && (key in pending || !Under(key, endpoint)) ::
                    old(serviceCurrentStatusData)[key]
        decreases pending
      {
        var key :| key in pending;
        pending := pending - {key};
        if |key| > |prefix| && key[..|prefix|] == prefix {
          serviceCurrentStatusData := serviceCurrentStatusData - {key};
        }
      }
    }

    method CleanupIdleEntries(now: int)
      modifies this`serviceCurrentStatusData
      ensures forall hands: map<string, Hand> ::
                Step(old(Model(hands)), Cleanup(now)).status == serviceCurrentStatusData
      ensures serviceCurrentStatusData ==
              map key | key in old(serviceCurrentStatusData) &&
                now - old(serviceCurrentStatusData)[key].lastAccess <= 600 ::
                old(serviceCurrentStatusData)[key]
    {
      var pending := serviceCurrentStatusData.Keys;
      while pending != {}
        invariant pending <= old(serviceCurrentStatusData).Keys
        invariant serviceCurrentStatusData ==
                  map key | key in old(serviceCurrentStatusData) &&
                    (key in pending || now - old(serviceCurrentStatusData)[key].lastAccess <= MAX_IDLE) ::
                      old(serviceCurrentStatusData)[key]
        decreases pending
      {
        var key :| key in pending;
        pending := pending - {key};
        if now - serviceCurrentStatusData[key].lastAccess > MAX_IDLE {
          serviceCurrentStatusData := serviceCurrentStatusData - {key};
        }
      }
    }
  }

  /** `aggregateAndWrite` up to the insert: the row of a batch, or none for an empty one. */
  method AggregatePoints(points: seq<Point>) returns (row: Option<Row>)
    ensures row == if points == [] then None else Some(Aggregate(points))
    ensures points != [] ==> row.Some? && RowMeans(points, row.value)
  {
    hide RowMeans;
    if |points| == 0 {
      return None;
    }
    AggregateMeans(points);
    var first, last := points[0], points[|points| - 1];
    var totalTime := last.time - first.time;
    var speedIn, speedOut: real;
    if totalTime > 0.0 {
      var tcpIn, tcpOut := last.tcpIn - first.tcpIn, last.tcpOut - first.tcpOut;
      var udpIn, udpOut := last.udpIn - first.udpIn, last.udpOut - first.udpOut;
      if tcpIn < 0 { tcpIn := last.tcpIn; }
      if tcpOut < 0 { tcpOut := last.tcpOut; }
      if udpIn < 0 { udpIn := last.udpIn; }
      if udpOut < 0 { udpOut := last.udpOut; }
      speedIn, speedOut := (tcpIn + udpIn) as real / totalTime, (tcpOut + udpOut) as real / totalTime;
    } else {
      speedIn := ((last.tcpIn - first.tcpIn) + (last.udpIn - first.udpIn)) as real / NOMINAL_SECONDS;
      speedOut := ((last.tcpOut - first.tcpOut) + (last.udpOut - first.udpOut)) as real / NOMINAL_SECONDS;
    }
    var pingSum, pingCount := 0, 0;
    for i := 0 to |points|
      invariant pingSum == PingSum(points[..i]) && pingCount == PingCount(points[..i])
    {
      assert points[..i + 1][..i] == points[..i];
      if points[i].ping.Some? {
        pingSum, pingCount := pingSum + points[i].ping.value, pingCount + 1;
      }
    }
    assert points[..|points|] == points;
    var ping := 0.0;
    if pingCount > 0 {
      ping := pingSum as real / pingCount as real;
    }
    row := Some(Row(first.endpoint, first.instance, |points|, last.tcpIn, last.tcpOut, last.udpIn, last.udpOut,
                    speedIn, speedOut, ping, Latest(last.pool), Latest(last.tcps), Latest(last.udps)));
  }
}
