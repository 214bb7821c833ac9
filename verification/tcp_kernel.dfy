/** The maps of src/transport/tcp_kernel.cc as an object that updates them in place.
    A socket is a name, as in `Kernels`. */
module TcpKernels {
  import opened Machine
  import opened Kernels

  class TcpKernel {
    var establishMap: map<Key, nat>
    var listenMap: map<Address, nat>
    var fdToSocket: map<nat, nat>

    constructor ()
      ensures establishMap == map[] && listenMap == map[] && fdToSocket == map[]
    {
      establishMap, listenMap, fdToSocket := map[], map[], map[];
    }

    /** A listener already at the address keeps it. */
    method InsertListen(local: Address, request: nat) returns (status: int)
      modifies this`listenMap
      ensures listenMap == Insert(old(listenMap), local, request)
      ensures status == if local in old(listenMap) then 1 else 0
    {
      if local in listenMap {
        return 1;
      }
      listenMap := listenMap[local := request];
      return 0;
    }

    method RemoveListen(local: Address) returns (status: int)
      modifies this`listenMap
      ensures listenMap == old(listenMap) - {local}
      ensures status == if local in old(listenMap) then 0 else 1
    {
      if local !in listenMap {
        return 1;
      }
      listenMap := listenMap - {local};
      return 0;
    }

    /** Reports success even when an entry was there and stayed. */
    method InsertEstablish(key: Key, socket: nat) returns (status: int)
      modifies this`establishMap
      ensures establishMap == Insert(old(establishMap), key, socket) && status == 0
    {
      if key !in establishMap {
        establishMap := establishMap[key := socket];
      }
      return 0;
    }

    method RemoveEstablish(key: Key) returns (status: int)
      modifies this`establishMap
      ensures establishMap == old(establishMap) - {key}
      ensures status == if key in old(establishMap) then 0 else 1
    {
      if key !in establishMap {
        return 1;
      }
      establishMap := establishMap - {key};
      return 0;
    }

    method FindSocket(key: Key) returns (socket: Option<nat>)
      ensures socket == Kernels.FindSocket(establishMap, listenMap, key)
    {
      if key in establishMap {
        return Some(establishMap[key]);
      }
      if key.local in listenMap {
        return Some(listenMap[key.local]);
      }
      return None;
    }

    method InsertSocketByFd(fd: nat, socket: nat) returns (status: int)
      modifies this`fdToSocket
      ensures fdToSocket == Insert(old(fdToSocket), fd, socket)
      ensures status == if fd in old(fdToSocket) then 1 else 0
    {
      if fd in fdToSocket {
        return 1;
      }
      fdToSocket := fdToSocket[fd := socket];
      return 0;
    }

    /** `cleanupSocket`: whatever entry the socket's own key names goes, which is
        the `Cleanup` event of `Kernels`.  The source returns a value only when the
        descriptor is unknown. */
    method CleanupSocket(fd: nat, sockets: seq<Entry>) returns (status: Option<int>)
      requires fd in fdToSocket ==> fdToSocket[fd] < |sockets|
      modifies this
      ensures status == if fd in old(fdToSocket) then None else Some(1)
      ensures fdToSocket == old(fdToSocket) - {fd}
      ensures fd !in old(fdToSocket) ==> establishMap == old(establishMap) && listenMap == old(listenMap)
      ensures fd in old(fdToSocket) ==>
                Kernel(establishMap, listenMap, sockets)
                == Next(Kernel(old(establishMap), old(listenMap), sockets), Cleanup(old(fdToSocket)[fd]))
    {
      if fd !in fdToSocket {
        return Some(1);
      }
      var socket := sockets[fdToSocket[fd]];
      fdToSocket := fdToSocket - {fd};
      if socket.role == Passive {
        var removed := RemoveListen(socket.key.local);
      } else if socket.role == Active {
        var removed := RemoveEstablish(socket.key);
      }
      return None;
    }
  }
}
