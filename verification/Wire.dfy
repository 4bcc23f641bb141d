/** The reading side of a connection: a byte string that arrives in pieces of any size. */
module Wire {
  import opened Bytes

  class Source {
    /** What the peer still sends before it closes. */
    var unread: bytes

    constructor (stream: bytes)
      ensures unread == stream
    {
      unread := stream;
    }

    /** Delivers between one and cap bytes; nothing once the peer has closed. */
    method Read(cap: nat) returns (data: bytes)
      requires cap > 0
      modifies this
      ensures old(unread) == data + unread && |data| <= cap
      ensures data == [] <==> old(unread) == []
    {
      if unread == [] {
        return [];
      }
      var n :| 1 <= n <= cap && n <= |unread|;
      data, unread := unread[..n], unread[n..];
    }
  }
}
