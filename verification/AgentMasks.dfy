/**
 Two-byte masks that stand for agents in the entries of the duplicate cache, and the
 hit counters kept by mask.
 */
module AgentMasks {
  import opened Base

  type byte = n: int | 0 <= n < 0x100

  const MASKS := 0x1_0000
  const COUNTERS := 0x1_0000_0000

  datatype AgentStatus = AgentStatus(mask: uint16, hits: map<string, nat>)

  /** binary.BigEndian.PutUint16 into a fresh slice. */
  function EncodeMask(mask: uint16): seq<byte> {
    [mask / 0x100, mask % 0x100]
  }

  /** binary.BigEndian.Uint16. */
  function ReadMask(high: byte, low: byte): uint16 {
    high as int * 0x100 + low as int
  }

  /** The masks of an entry, or nothing for an entry of odd length. */
  function DecodeMasks(entry: seq<byte>): Option<seq<uint16>> {
    if entry == [] then Some([])
    else if |entry| == 1 then None
    else
      match DecodeMasks(entry[2..])
      case None => None
      case Some(rest) => Some([ReadMask(entry[0], entry[1])] + rest)
  }

  function EncodeMasks(masks: seq<uint16>): seq<byte> {
    if masks == [] then [] else EncodeMasks(masks[..|masks| - 1]) + EncodeMask(masks[|masks| - 1])
  }

  /** Two bytes, the high one first. */
  lemma BigEndian(mask: uint16)
    ensures |EncodeMask(mask)| == 2
    ensures EncodeMask(mask)[0] as int * 256 + EncodeMask(mask)[1] as int == mask as int
  {
  }

  lemma {:induction false} DecodeAppend(entry: seq<byte>, mask: uint16)
    ensures match DecodeMasks(entry)
            case None => DecodeMasks(entry + EncodeMask(mask)) == None
            case Some(masks) => DecodeMasks(entry + EncodeMask(mask)) == Some(masks + [mask])
  {
    var e := EncodeMask(mask);
    if entry == [] {
      assert entry + e == e && e[2..] == [];
      assert DecodeMasks(e[2..]) == Some([]);
      assert ReadMask(e[0], e[1]) == mask;
      var none: seq<uint16> := [];
      assert [mask] + none == none + [mask];
    } else if |entry| == 1 {
      assert (entry + e)[2..] == [e[1]];
      assert DecodeMasks([e[1]]) == None;
    } else {
      assert (entry + e)[2..] == entry[2..] + e;
      DecodeAppend(entry[2..], mask);
      if DecodeMasks(entry).Some? {
        var first, rest := ReadMask(entry[0], entry[1]), DecodeMasks(entry[2..]).value;
        assert [first] + rest + [mask] == [first] + (rest + [mask]);
      }
    }
  }

  lemma {:induction false} DecodeEncode(masks: seq<uint16>)
    ensures DecodeMasks(EncodeMasks(masks)) == Some(masks)
  {
    if masks == [] {
    } else {
      var n := |masks| - 1;
      DecodeEncode(masks[..n]);
      DecodeAppend(EncodeMasks(masks[..n]), masks[n]);
      assert masks == masks[..n] + [masks[n]];
    }
  }

  lemma {:induction false} DecodedParity(entry: seq<byte>)
    ensures DecodeMasks(entry) == None <==> |entry| % 2 == 1
  {
    if |entry| < 2 {
    } else {
      DecodedParity(entry[2..]);
    }
  }

  function Hits(a: AgentStatus, category: string): nat {
    if category in a.hits then a.hits[category] else 0
  }

  function Bump(a: AgentStatus, category: string): AgentStatus {
    a.(hits := a.hits[category := (Hits(a, category) + 1) % COUNTERS])
  }

  /** Every agent whose mask occurs is counted once, however often the mask occurs. */
  function Counted(managed: map<string, AgentStatus>, masks: seq<uint16>, category: string): map<string, AgentStatus> {
    map id | id in managed :: if managed[id].mask in masks then Bump(managed[id], category) else managed[id]
  }

  /** What one entry adds to the counters; an entry of odd length adds nothing. */
  function Released(managed: map<string, AgentStatus>, entry: seq<byte>, category: string): map<string, AgentStatus> {
    match DecodeMasks(entry)
    case None => managed
    case Some(masks) => Counted(managed, masks, category)
  }

  /** Registration by an info message; a known agent keeps its mask and its counters. */
  function Registered(managed: map<string, AgentStatus>, latestMask: uint16, id: string): map<string, AgentStatus> {
    if id in managed then managed else managed[id := AgentStatus(latestMask, map[])]
  }

  class AgentManager {
    var managed: map<string, AgentStatus>
    var latestMask: uint16

    method Register(id: string)
      modifies this
      ensures managed == Registered(old(managed), old(latestMask), id)
      ensures latestMask == if id in old(managed) then old(latestMask) else (old(latestMask) + 1) % MASKS
    {
      if id !in managed {
        managed := managed[id := AgentStatus(latestMask, map[])];
        latestMask := (latestMask + 1) % MASKS;
      }
    }

    method AgentMask(agentId: string) returns (mask: Option<seq<byte>>)
      ensures mask == if agentId in managed then Some(EncodeMask(managed[agentId].mask)) else None
      ensures agentId in managed ==>
                |mask.value| == 2 && mask.value[0] as int * 256 + mask.value[1] as int == managed[agentId].mask as int
    {
      if agentId in managed {
        mask := Some(EncodeMask(managed[agentId].mask));
      } else {
        mask := None;
      }
    }

    method ReadMasks(masks: seq<byte>) returns (hitAgent: seq<uint16>)
      requires |masks| % 2 == 0
      ensures DecodeMasks(masks) == Some(hitAgent)
    {
      hitAgent := [];
      var i := 0;
      while i < |masks|
        invariant 0 <= i <= |masks| && i % 2 == 0
        invariant DecodeMasks(masks[..i]) == Some(hitAgent)
      {
        var mask := ReadMask(masks[i], masks[i + 1]);
        DecodeAppend(masks[..i], mask);
        assert masks[..i + 2] == masks[..i] + EncodeMask(mask);
        hitAgent := hitAgent + [mask];
        i := i + 2;
      }
      assert masks[..|masks|] == masks;
    }

    method AddAgentHitMask(masks: seq<byte>, category: string)
      modifies this`managed
      ensures managed == Released(old(managed), masks, category)
    {
      DecodedParity(masks);
      if |masks| % 2 != 0 {
        return;
      }
      var hitAgent := ReadMasks(masks);
      var rest := managed.Keys;
      while rest != {}
        invariant CountedOutside(managed, old(managed), rest, hitAgent, category)
      {
        var id :| id in rest;
        CountedStep(managed, old(managed), rest, hitAgent, category, id);
        if managed[id].mask in hitAgent {
          AddHit(id, category);
        }
        rest := rest - {id};
      }
    }

    method AddHit(id: string, category: string)
      requires id in managed
      modifies this`managed
      ensures managed == old(managed)[id := Bump(old(managed)[id], category)]
    {
      var a := managed[id];
      if category in a.hits {
        managed := managed[id := a.(hits := a.hits[category := (a.hits[category] + 1) % COUNTERS])];
      } else {
        managed := managed[id := a.(hits := a.hits[category := 1])];
      }
    }
  }

  /** Between two turns of the range: the agents that are not left are counted. */
  ghost predicate CountedOutside(managed: map<string, AgentStatus>, before: map<string, AgentStatus>, rest: set<string>,
                                 masks: seq<uint16>, category: string)
  {
    && rest <= before.Keys == managed.Keys
    && forall id :: id in managed ==>
         managed[id] == if id !in rest && before[id].mask in masks then Bump(before[id], category) else before[id]
  }

  lemma CountedStep(managed: map<string, AgentStatus>, before: map<string, AgentStatus>, rest: set<string>,
                    masks: seq<uint16>, category: string, id: string)
    requires CountedOutside(managed, before, rest, masks, category) && id in rest
    ensures managed[id] == before[id]
    ensures var next := if before[id].mask in masks then managed[id := Bump(managed[id], category)] else managed;
            CountedOutside(next, before, rest - {id}, masks, category)
  {
  }
}
