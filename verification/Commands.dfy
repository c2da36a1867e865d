/** The commands a peer queues, as the protocol names them. */
module Commands {
  import opened Carryless
  import Datagram

  /** What a command is, with the fields of its structure that are fixed when it is queued: `start` names the packet of a
      fragment, `count` and `index` say which of how many it is, `total` is the length of the packet. */
  datatype Kind =
    | Control(number: nat, body: seq<Byte>)
    | SendReliable
    | SendUnreliable
    | SendUnsequenced(group: nat)
    | SendFragment(start: nat, count: nat, index: nat, total: nat)
    | SendUnreliableFragment(start: nat, count: nat, index: nat, total: nat)

  function CommandNumber(k: Kind): nat {
    match k
    case Control(number, _) => number
    case SendReliable => 6
    case SendUnreliable => 7
    case SendUnsequenced(_) => 9
    case SendFragment(_, _, _, _) => 8
    case SendUnreliableFragment(_, _, _, _) => 12
  }

  function SizeOf(k: Kind): nat { Datagram.Size(CommandNumber(k)) }

  type Short = n: nat | n < 0x10000
}
