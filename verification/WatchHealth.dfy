/**
 Health registry of the third-party watches (internal/controller/watch_health.go).

 A status is a value; the registry is an object whose mark operations replace one kind's
 status and notify on transitions.  Clock readings and metrics are not modelled.
 */
module WatchHealth {

  datatype DisabledReason = NotDisabled | ByConfig | CrdRemoved

  datatype Status = Status(
    healthy: bool,
    lastError: string,
    failures: nat,
    disabled: bool,
    reason: DisabledReason)

  /** The starting state: neither healthy, degraded nor disabled. */
  const STARTING := Status(false, "", 0, false, NotDisabled)

  datatype Notice = BecameHealthy(started: bool) | BecameUnhealthy | BecameDisabled

  function AsHealthy(): Status { Status(true, "", 0, false, NotDisabled) }

  function AsUnhealthy(s: Status, err: string): Status {
    Status(false, err, s.failures + 1, false, NotDisabled)
  }

  function AsDisabled(reason: DisabledReason): Status { Status(false, "", 0, true, reason) }

  type Registry = map<string, Status>

  /** Missing kinds read as the starting state. */
  function StatusOf(kinds: Registry, kind: string): Status {
    if kind in kinds then kinds[kind] else STARTING
  }

  class Health {
    var kinds: Registry
    var notices: map<string, seq<Notice>>

    constructor ()
      ensures kinds == map[] && notices == map[]
    {
      kinds, notices := map[], map[];
    }

    function NoticesOf(kind: string): seq<Notice>
      reads this
    {
      if kind in notices then notices[kind] else []
    }

    method Notify(kind: string, n: Notice)
      modifies this`notices
      ensures notices == old(notices)[kind := old(NoticesOf(kind)) + [n]]
    {
      notices := notices[kind := NoticesOf(kind) + [n]];
    }

    method Register(kind: string)
      modifies this`kinds
      ensures kinds == old(kinds)[kind := StatusOf(old(kinds), kind)]
    {
      if kind !in kinds {
        kinds := kinds[kind := STARTING];
      }
    }

    method MarkHealthy(kind: string, started: bool) returns (transition: bool)
      modifies this
      ensures kinds == old(kinds)[kind := Status(true, "", 0, false, NotDisabled)]
      ensures transition == !StatusOf(old(kinds), kind).healthy
      ensures notices == if transition then old(notices)[kind := old(NoticesOf(kind)) + [BecameHealthy(started)]]
        else old(notices)
    {
      transition := !StatusOf(kinds, kind).healthy;
      kinds := kinds[kind := AsHealthy()];
      if transition {
        Notify(kind, BecameHealthy(started));
      }
    }

    method MarkUnhealthy(kind: string, err: string) returns (transition: bool)
      modifies this
      ensures kinds == old(kinds)[kind := Status(false, err, StatusOf(old(kinds), kind).failures + 1, false,
        NotDisabled)]
      ensures transition == (StatusOf(old(kinds), kind).healthy || StatusOf(old(kinds), kind).lastError == "")
      ensures notices == if transition then old(notices)[kind := old(NoticesOf(kind)) + [BecameUnhealthy]]
        else old(notices)
    {
      var s := StatusOf(kinds, kind);
      transition := s.healthy || s.lastError == "";
      kinds := kinds[kind := AsUnhealthy(s, err)];
      if transition {
        Notify(kind, BecameUnhealthy);
      }
    }

    method MarkDisabled(kind: string, reason: DisabledReason) returns (transition: bool)
      modifies this
      ensures kinds == old(kinds)[kind := Status(false, "", 0, true, reason)]
      ensures transition == !StatusOf(old(kinds), kind).disabled
      ensures notices == if transition then old(notices)[kind := old(NoticesOf(kind)) + [BecameDisabled]]
        else old(notices)
    {
      transition := !StatusOf(kinds, kind).disabled;
      kinds := kinds[kind := AsDisabled(reason)];
      if transition {
        Notify(kind, BecameDisabled);
      }
    }

    method MarkStarting(kind: string)
      modifies this`kinds
      ensures kinds == old(kinds)[kind := Status(false, "", 0, false, NotDisabled)]
    {
      kinds := kinds[kind := STARTING];
    }
  }
}
