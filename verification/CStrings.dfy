/** `get_cstring` of src/lldb/src/strings.rs: extracting a string from an API that fills a buffer. */
module CStrings {

  /** One call of the API: what it stores before the terminating NUL, and what it returns. Calls are
      numbered, since conventions may differ from one to the next. */
  datatype Reply = Reply(stored: string, size: nat)

  type Api = (nat, nat) -> Reply

  /** The string is stored whole when it fits, and its length is returned, with or without the NUL;
      otherwise it is cut short, and what is returned may be the size stored or the size needed, with
      or without the NUL, or anything in between. */
  ghost predicate Serves(api: Api, s: string)
  {
    forall call, capacity :: capacity > 0 ==> ServesCall(api(call, capacity), s, capacity)
  }

  predicate ServesCall(r: Reply, s: string, capacity: nat)
    requires capacity > 0
  {
    if |s| < capacity then r.stored == s && (r.size == |s| || r.size == |s| + 1)
    else r.stored == s[..capacity - 1] && r.size >= capacity - 1
  }

  /** Vectors allocate at least what they are asked for. */
  ghost predicate Generous(allocate: nat -> nat)
  {
    forall n :: allocate(n) >= n
  }

  /** The result is the whole string, never a part of it, whatever the API returns. */
  method GetCString(api: Api, allocate: nat -> nat, ghost s: string) returns (r: string)
    requires Serves(api, s) && Generous(allocate)
    ensures r == s
  {
    var first := api(0, 1024);
    assert ServesCall(first, s, 1024);
    if first.size < 1023 {
      return first.stored;
    }
    var capacity := allocate(if first.size > 1024 then first.size + 2 else 2048);
    var call := 1;
    while true
      invariant capacity >= 2
      decreases |s| + 3 - capacity
    {
      var reply := api(call, capacity);
      assert ServesCall(reply, s, capacity);
      if reply.size < capacity - 1 {
        return reply.stored;
      }
      capacity := allocate(capacity * 2);
      call := call + 1;
    }
  }
}
