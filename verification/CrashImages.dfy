/**
 Which directories a crash can leave: an entry that was linked or removed since the last sync of its directory is found
 afterwards either as it was or as it is now.
 */
module CrashImages {

  /** The entries as of the last sync, and the entries now. */
  datatype Directory<V> = Directory(durable: map<string, V>, now: map<string, V>)

  function Linked<V>(d: Directory<V>, name: string, content: V): Directory<V> {
    d.(now := d.now[name := content])
  }

  function Unlinked<V>(d: Directory<V>, name: string): Directory<V> {
    d.(now := d.now - {name})
  }

  function Synced<V>(d: Directory<V>): Directory<V> {
    d.(durable := d.now)
  }

  /** Is an entry found as one of the two says? */
  predicate Agrees<V(==)>(m: map<string, V>, d: map<string, V>, name: string) {
    if name in m then name in d && m[name] == d[name] else name !in d
  }

  /** A directory a crash can leave: every entry is as of the last sync or as it is now. */
  ghost predicate MayBecome<V>(d: Directory<V>, m: map<string, V>) {
    forall name :: Agrees(m, d.durable, name) || Agrees(m, d.now, name)
  }

  /** After a sync a crash leaves what there is. */
  lemma SyncedIsCertain<V>(d: Directory<V>, m: map<string, V>)
    requires d.durable == d.now
    ensures MayBecome(d, m) <==> m == d.now
  {
    if MayBecome(d, m) {
      forall name ensures name in m <==> name in d.now {
        assert Agrees(m, d.now, name);
      }
      forall name | name in m ensures m[name] == d.now[name] {
        assert Agrees(m, d.now, name);
      }
    }
  }

  /** Both the last synced and the present entries are always possible. */
  lemma BothArePossible<V>(d: Directory<V>)
    ensures MayBecome(d, d.durable) && MayBecome(d, d.now)
  {
  }

  /** With one entry changed since the sync, a crash leaves one of the two. */
  lemma OneChange<V>(d: Directory<V>, name: string, m: map<string, V>)
    requires MayBecome(d, m) && forall other | other != name :: Agrees(d.durable, d.now, other)
    ensures m == d.durable || m == d.now
  {
    var e := if Agrees(m, d.durable, name) then d.durable else d.now;
    forall other ensures Agrees(m, e, other) {
      assert Agrees(m, d.durable, other) || Agrees(m, d.now, other);
      assert other != name ==> Agrees(d.durable, d.now, other);
    }
    forall other ensures other in m <==> other in e {
      assert Agrees(m, e, other);
    }
    forall other | other in m ensures m[other] == e[other] {
      assert Agrees(m, e, other);
    }
  }
}
