/** Configuration units, the events that announce them, and their fingerprints. */
module ConfigEvents {
  import opened Text

  const SYSTEM_TENANT := "00000000-0000-0000-0000-000000000001"

  function NormalizeTenant(tenant: string): string {
    if TrimSpace(tenant) == "" then SYSTEM_TENANT else TrimSpace(tenant)
  }

  /** What is reloaded as a whole: a key of a domain, for one tenant. */
  datatype Unit = Unit(domain: string, tenant: string, key: string)

  datatype ConfigEvent = ConfigEvent(domain: string, tenant: string, key: string, version: int) {
    /** The unit named by an event whose domain has been trimmed. */
    function About(): Unit { Unit(domain, NormalizeTenant(tenant), key) }
  }

  /** A bus event as a subscriber sees it; the payload is missing when it cannot be decoded. */
  datatype BusEvent = Resync | Config(payload: Option<ConfigEvent>)

  /** A token per unit that changes whenever the unit does. */
  type Fingerprints = map<Unit, string>

  /** Reading a missing key of a Go map gives the zero value. */
  function TokenOf(f: Fingerprints, u: Unit): string {
    if u in f then f[u] else ""
  }

  function Units(batch: seq<ConfigEvent>): set<Unit> {
    set i | 0 <= i < |batch| :: batch[i].About()
  }

  lemma UnitsOfAppend(batch: seq<ConfigEvent>, ev: ConfigEvent)
    ensures Units(batch + [ev]) == Units(batch) + {ev.About()}
  {
    var b := batch + [ev];
    assert b[|batch|] == ev;
    forall u | u in Units(batch) ensures u in Units(b) {
      var i :| 0 <= i < |batch| && batch[i].About() == u;
      assert b[i].About() == u;
    }
  }

  predicate DistinctUnits(batch: seq<ConfigEvent>) {
    forall i, j :: 0 <= i < j < |batch| ==> batch[i].About() != batch[j].About()
  }
}
