/**
 * The TCP chat transport (`ChatService`) as a black box: a send either reaches
 * the peer or not, and which one happens is an input of the send.
 */
module Transport {

  /** One outgoing payload: `SendMessageAsync(address, port, message)`. */
  datatype Packet = Packet(address: string, port: int, payload: string)

  class ChatService {
    /** Every payload a send was started for, in the order the sends were started. */
    var attempted: seq<Packet>

    constructor ()
      ensures attempted == []
    {
      attempted := [];
    }

    /** An awaited send: the result is whether connecting and writing succeeded. */
    method SendMessage(address: string, port: int, message: string, reachable: bool) returns (ok: bool)
      modifies this
      ensures attempted == old(attempted) + [Packet(address, port, message)]
      ensures ok == reachable
    {
      attempted := attempted + [Packet(address, port, message)];
      ok := reachable;
    }

    /** A send whose task is discarded (`_ = SendMessageAsync(...)`): its result is never observed. */
    method Post(address: string, port: int, message: string)
      modifies this
      ensures attempted == old(attempted) + [Packet(address, port, message)]
    {
      attempted := attempted + [Packet(address, port, message)];
    }
  }
}
