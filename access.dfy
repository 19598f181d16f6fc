/**
 * The door daemon of access.py: one zone's door, its readers, and the users
 * table, with the entry points the GPIO callbacks, the timers and the
 * signals invoke (data_pulse, the timer expiry, SIGHUP's rehash and SIGUSR1).
 */
module Access {
  import opened Wrappers
  import opened Formats
  import opened Wiegand
  import opened Authorization
  import opened Outputs
  import opened Readers

  /** What happens to a completed stream: refused by validate_bits, or decided by lookup_card. */
  datatype Outcome = Rejected(error: DecodeError) | Decided(decision: Decision)

  /** validate_bits followed by lookup_card, against one users table and zone. */
  function Process(bits: string, users: Table, zone: string): (o: Outcome)
    requires IsBits(bits)
    ensures |bits| != FrameLength ==> o == Rejected(LengthError)
    ensures o.Rejected? <==> Validate(bits).Failure?
    ensures o.Rejected? ==> o.error == Validate(bits).error
    ensures o.Decided? ==> o.decision == Authorize(users, zone, Validate(bits).value)
  {
    match Validate(bits)
    case Failure(e) => Rejected(e)
    case Success(c) => Decided(Authorize(users, zone, c))
  }

  predicate Opens(o: Outcome)
  {
    o.Decided? && o.decision.Grant?
  }

  /**
   * A stream opens the door only if it is the correctly encoded frame of
   * some facility and user one of whose lookup keys holds a record
   * authorized for the zone.
   */
  lemma OpensOnlyForAuthorizedCard(bits: string, users: Table, zone: string)
    requires IsBits(bits) && Opens(Process(bits, users, zone))
    ensures Validate(bits).Success?
    ensures var c := Validate(bits).value;
      && bits == Encode(c.facility, c.userId)
      && exists k :: k in LookupKeys(c) && k in users && Authorizes(users[k], zone)
  {
    DecodeEncode(bits);
    GrantNeedsAuthorizedRecord(users, zone, Validate(bits).value);
  }

  /**
   * A table holding "<facility>,<user>" with a named record authorized for
   * the zone opens the door for the frame that card sends.
   */
  lemma OpensForEnrolledCard(facility: nat, userId: nat, users: Table, zone: string)
    requires facility < 256 && userId < 65536
    requires var k := Decimal(facility) + "," + Decimal(userId);
      k in users && Authorizes(users[k], zone) && "name" in users[k]
    ensures IsBits(Encode(facility, userId))
    ensures Process(Encode(facility, userId), users, zone)
      == Decided(Grant(users[Decimal(facility) + "," + Decimal(userId)]["name"]))
  {
    EncodeDecode(facility, userId);
    PairKeyDecides(users, zone, Validate(Encode(facility, userId)).value);
  }

  /** The daemon's state: the global zone, config readers, zone_by_pin and users of access.py. */
  class Daemon {
    const zone: string
    const door: Door
    const readers: map<string, Reader>
    /** zone_by_pin */
    const routes: map<int, string>
    /** The pins with a falling-edge callback. */
    const inputs: set<int>
    var users: Table

    ghost predicate Valid()
      reads this, readers.Values
    {
      && (forall n | n in readers :: readers[n].name == n && readers[n].Valid())
      && Routed(readers, routes, inputs)
    }

    /**
     * initialize, without the lockfile, logging and signal plumbing:
     * zone_by_pin starts with the latch pin, the door is set up locked, and
     * the readers are set up from the configuration.
     */
    constructor (zone: string, config: seq<(string, Entry)>, users: Table,
                 latch: int, green: int, beep: int, unlockValue: Level, pins: map<int, Level>)
      requires DistinctNames(config)
      ensures Valid()
      ensures this.zone == zone && this.users == users
      ensures fresh(door) && door.latch == latch && door.green == green && door.beep == beep
      ensures door.unlockValue == unlockValue && door.pins == Apply(pins, door.Locking())
      ensures door.writes == door.Locking()
      ensures readers.Keys == ReaderNames(config)
      ensures forall i | 0 <= i < |config| && IsReaderEntry(config[i].0, config[i].1) ::
        config[i].0 in readers &&
        var r := readers[config[i].0];
        r.d0 == config[i].1.fields["d0"] && r.d1 == config[i].1.fields["d1"]
      ensures forall n | n in readers :: fresh(readers[n]) && readers[n].State() == Idle(0)
      ensures routes == RoutePins(config, map[latch := zone])
      ensures inputs == DataPins(config)
    {
      this.zone := zone;
      this.users := users;
      door := new Door(latch, green, beep, unlockValue, pins);
      var rs, ro, ins := SetupReaders(config, map[latch := zone]);
      readers, routes, inputs := rs, ro, ins;
    }

    /**
     * data_pulse: the falling edge on `channel` goes to the reader zone_by_pin
     * names, which appends its bit and kicks its timer; no other reader changes.
     */
    method DataPulse(channel: int)
      requires Valid() && channel in inputs
      modifies readers[routes[channel]]
      ensures Valid()
      ensures var r := readers[routes[channel]];
        && r.State() == Pulse(old(r.State()), r.d0, r.d1, channel)
        && r.stream == old(r.stream) + (if channel == r.d0 then "0" else "1")
      ensures forall n | n in readers && n != routes[channel] :: readers[n].State() == old(readers[n].State())
    {
      var reader := readers[routes[channel]];
      reader.DataPulse(channel);
      PulseKeepsConsistent(old(reader.State()), reader.d0, reader.d1, channel);
    }

    /**
     * The expiry of reader `name`'s timer (wiegand_stream_done): a non-empty
     * stream is drained and handed to validate_bits once, whose credential
     * lookup_card decides; a grant drives unlock_briefly, anything else leaves
     * the outputs alone. An empty stream changes nothing.
     */
    method StreamDone(name: string) returns (outcome: Option<Outcome>)
      requires Valid() && name in readers
      modifies readers[name], door
      ensures Valid()
      ensures var r := readers[name];
        if old(r.stream) == "" then
          outcome == None && r.State() == old(r.State())
        else
          && IsBits(old(r.stream))
          && outcome == Some(Process(old(r.stream), users, zone))
          && r.State() == Idle(old(r.started))
      ensures forall n | n in readers && n != name :: readers[n].State() == old(readers[n].State())
      ensures if outcome.Some? && Opens(outcome.value) then
          && door.writes == old(door.writes) + door.Unlocking() + door.Locking()
          && door.pins == Apply(old(door.pins), door.Locking())
        else
          door.writes == old(door.writes) && door.pins == old(door.pins)
    {
      var reader := readers[name];
      ExpireKeepsConsistent(reader.State());
      var message := reader.StreamDone();
      if message.None? {
        return None;
      }
      var result := CheckFrame(message.value);
      outcome := Some(result);
    }

    /**
     * validate_bits together with the lookup_card it ends in: a frame that
     * fails the length or parity check is refused without a lookup.
     */
    method CheckFrame(bits: string) returns (outcome: Outcome)
      requires Valid() && IsBits(bits)
      modifies door
      ensures Valid() && outcome == Process(bits, users, zone)
      ensures if Opens(outcome) then
          && door.writes == old(door.writes) + door.Unlocking() + door.Locking()
          && door.pins == Apply(old(door.pins), door.Locking())
        else
          door.writes == old(door.writes) && door.pins == old(door.pins)
    {
      var validated := ValidateBits(bits);
      match validated
      case Failure(e) =>
        outcome := Rejected(e);
      case Success(c) =>
        var decision := LookupCard(c);
        outcome := Decided(decision);
    }

    /**
     * lookup_card: the first truthy record among the four keys decides; only
     * a grant drives unlock_briefly, a refusal (reject_card) leaves the
     * outputs alone.
     */
    method LookupCard(c: Credential) returns (decision: Decision)
      requires Valid()
      modifies door
      ensures Valid() && decision == Authorize(users, zone, c)
      ensures if decision.Grant? then
          && door.writes == old(door.writes) + door.Unlocking() + door.Locking()
          && door.pins == Apply(old(door.pins), door.Locking())
        else
          door.writes == old(door.writes) && door.pins == old(door.pins)
    {
      decision := Authorize(users, zone, c);
      if decision.Grant? {
        door.UnlockBriefly();
      }
    }

    /** rehash (SIGHUP): the users table is replaced wholesale; nothing else changes. */
    method Rehash(newUsers: Table)
      requires Valid()
      modifies this`users
      ensures Valid() && users == newUsers
    {
      users := newUsers;
    }

    /** sigusr1: unlock_briefly without any lookup. */
    method ManualUnlock()
      requires Valid()
      modifies door
      ensures Valid() && users == old(users)
      ensures door.writes == old(door.writes) + door.Unlocking() + door.Locking()
      ensures door.pins == Apply(old(door.pins), door.Locking())
    {
      door.UnlockBriefly();
    }
  }
}
