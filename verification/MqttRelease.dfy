// When releasing a tracker comes to an end, takes its queued messages out of the send buffer
// and leaves all others whole, whatever is behind the buffer.
module MqttRelease {
  import opened MqttFrames
  import opened MqttEngine
  import opened MqttExact

  ghost predicate ExactRelease(e: Engine, i: int)
    requires Shaped(e) && IsSlot(i)
  {
    e.slots[i].state == MWaiting || e.slots[i].state == MSending ==> Exact(e.send, i)
  }

  ghost predicate ExactVisit(cfg: Config, e: Engine, i: int)
    requires Shaped(e) && IsSlot(i)
  {
    Releases(cfg, e, i) ==> ExactRelease(e, i)
  }

  // So do all releases of one pass over the trackers from k on.
  ghost predicate ExactSweep(cfg: Config, e: Engine, k: nat, oks: seq<bool>)
    requires Shaped(e) && k <= SLOTS && |oks| == SLOTS
    decreases SLOTS - k
  {
    k == SLOTS ||
      (&& ExactVisit(cfg, e, k)
       && var (e1, ret) := VisitSlot(cfg, e, k, oks[k]);
          (ret >= 0 ==> ExactSweep(cfg, e1, k + 1, oks)))
  }
}
