/** The semaphore (kernel/semaphore.cc) on its own: a count and the waiters in order.  A unit
    given back goes directly to the first waiter. */
module Semaphores {

  type Tid = nat

  datatype Semaphore = Semaphore(count: nat, waiting: seq<Tid>)

  function DownSem(m: Semaphore, t: Tid): Semaphore {
    if m.count == 0 then m.(waiting := m.waiting + [t]) else m.(count := m.count - 1)
  }

  function UpSem(m: Semaphore): Semaphore {
    if m.waiting == [] then m.(count := m.count + 1) else m.(waiting := m.waiting[1..])
  }
}
