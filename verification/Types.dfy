/**
  The records of the daemon.  Pointers to station entries, nodes and client
  addresses are plain numbers; times are milliseconds.
 */
module Types {

  datatype Option<+T> = None | Some(value: T)

  type Ptr = nat
  type Addr = nat
  type NodeId = nat
  type Bssid = nat

  const U8: nat := 0x100
  const U16: nat := 0x1_0000
  const U32: nat := 0x1_0000_0000
  const U64: nat := 0x1_0000_0000_0000_0000

  /** FF:FF:FF:FF:FF:FF */
  const BROADCAST: Bssid := 0xFFFF_FFFF_FFFF
  /** The marker for "no signal in this message". */
  const NO_SIGNAL: int := 0xff

  /** `now - t` on unsigned 64-bit times. */
  function Since(now: nat, t: nat): nat {
    if t <= now then now - t else (now - t) % U64
  }

  /** Counted from `t` on in 64 bits it is `now` again, whichever is later. */
  lemma SinceIsUnsigned(now: nat, t: nat)
    requires now < U64 && t < U64
    ensures Since(now, t) < U64 && (t + Since(now, t)) % U64 == now
  {
    if now < t {
      assert now - t + U64 == (now - t) % U64;
    }
  }

  /** The settings a run uses; they do not change while it lasts. */
  datatype Config = Config(
    staBlockTimeout: nat,
    localStaTimeout: nat,
    localStaUpdate: nat,
    maxRetryBand: nat,
    seenPolicyTimeout: nat,
    bandSteeringThreshold: nat,
    loadBalancingThreshold: nat,
    remoteUpdateInterval: nat,
    remoteNodeTimeout: nat,
    minSnr: int,
    minConnectSnr: int,
    signalDiffThreshold: nat,
    roamScanSnr: int,
    roamScanTries: nat,
    roamScanInterval: nat,
    roamTriggerSnr: int,
    roamTriggerInterval: nat,
    roamKickDelay: nat,
    initialConnectDelay: nat,
    loadKickEnabled: bool,
    loadKickThreshold: nat,
    loadKickDelay: nat,
    loadKickMinClients: nat,
    kickClientActiveBits: nat,
    beaconReportTimeout: nat,
    beaconRequestFrequency: nat,
    beaconRequestSignalModifier: nat)

  /** Divisors are not zero and an entry's life time is a positive `int`. */
  predicate Sane(cfg: Config) {
    && 0 < cfg.localStaTimeout < 0x8000_0000
    && 0 < cfg.localStaUpdate
    && 0 < cfg.remoteUpdateInterval
  }

  /** One radio network of an access point, local or remote. */
  datatype Node = Node(
    ssid: string,
    bssid: Bssid,
    freq: int,
    noise: int,
    nAssoc: nat,
    maxAssoc: int,
    load: nat)
}
