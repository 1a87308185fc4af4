/** What each operation on the endpoint's tree changes, as seen by looking things up, and what
    one operation undoes of another. */
module ConfigFsEffects {
  import opened CTypes
  import opened ConfigFs

  predicate Allows(t: Tree, n: string, h: string) {
    n in t.subsystems && h in t.subsystems[n].allowed
  }

  predicate HasNs(t: Tree, n: string, id: Int32, d: Device) {
    n in t.subsystems && id in t.subsystems[n].namespaces && t.subsystems[n].namespaces[id] == d
  }

  predicate HasSubsys(t: Tree, n: string, any: bool) {
    n in t.subsystems && t.subsystems[n].allowAny == any
  }

  predicate HasPort(t: Tree, id: Int32, p: Port) {
    id in t.ports && t.ports[id] == p
  }

  /** Two trees in which every lookup finds the same are the same. */
  lemma LookupsDetermine(t: Tree, u: Tree)
    requires forall n, any :: HasSubsys(t, n, any) <==> HasSubsys(u, n, any)
    requires forall n, h :: Allows(t, n, h) <==> Allows(u, n, h)
    requires forall n, id, d :: HasNs(t, n, id, d) <==> HasNs(u, n, id, d)
    requires forall id, p :: HasPort(t, id, p) <==> HasPort(u, id, p)
    requires t.hosts == u.hosts && t.links == u.links
    ensures t == u
  {
    forall n
      ensures n in t.subsystems <==> n in u.subsystems
      ensures n in t.subsystems ==> t.subsystems[n] == u.subsystems[n]
    {
      assert n in t.subsystems ==> HasSubsys(t, n, t.subsystems[n].allowAny);
      assert n in u.subsystems ==> HasSubsys(u, n, u.subsystems[n].allowAny);
      if n in t.subsystems {
        SameSubsys(t, u, n);
      }
    }
    forall id
      ensures id in t.ports <==> id in u.ports
      ensures id in t.ports ==> t.ports[id] == u.ports[id]
    {
      assert id in t.ports ==> HasPort(t, id, t.ports[id]);
      assert id in u.ports ==> HasPort(u, id, u.ports[id]);
    }
    assert t.subsystems == u.subsystems && t.ports == u.ports;
  }

  lemma SameSubsys(t: Tree, u: Tree, n: string)
    requires n in t.subsystems && n in u.subsystems && t.subsystems[n].allowAny == u.subsystems[n].allowAny
    requires forall h :: Allows(t, n, h) <==> Allows(u, n, h)
    requires forall id, d :: HasNs(t, n, id, d) <==> HasNs(u, n, id, d)
    ensures t.subsystems[n] == u.subsystems[n]
  {
    var a, b := t.subsystems[n], u.subsystems[n];
    forall h
      ensures h in a.allowed <==> h in b.allowed
    {
      assert Allows(t, n, h) <==> Allows(u, n, h);
    }
    forall id
      ensures id in a.namespaces <==> id in b.namespaces
      ensures id in a.namespaces ==> a.namespaces[id] == b.namespaces[id]
    {
      assert id in a.namespaces ==> HasNs(t, n, id, a.namespaces[id]);
      assert id in b.namespaces ==> HasNs(u, n, id, b.namespaces[id]);
    }
    assert a.allowed == b.allowed && a.namespaces == b.namespaces;
  }

  /** A removal takes away what it names, with what hangs on it, and nothing else. All of them
      report success, whether or not there was something to remove. */
  lemma RemovalTakes(t: Tree, op: Op)
    requires op.DeleteSubsys? || op.DeleteNs? || op.DeleteHost? || op.DeletePort? || op.UnlinkHost? || op.UnlinkPort?
    ensures var (u, ok) := (Exec(t, op).tree, Exec(t, op).ok);
      && ok
      && (forall n, any :: HasSubsys(u, n, any) <==> HasSubsys(t, n, any) && op != DeleteSubsys(n))
      && (forall n, h :: Allows(u, n, h) <==> Allows(t, n, h) && op != DeleteSubsys(n) && op != UnlinkHost(n, h))
      && (forall n, id, d :: HasNs(u, n, id, d) <==> HasNs(t, n, id, d) && op != DeleteSubsys(n) && op != DeleteNs(n, id))
      && (forall id, p :: HasPort(u, id, p) <==> HasPort(t, id, p) && op != DeletePort(id))
      && (forall h :: h in u.hosts <==> h in t.hosts && (op != DeleteHost(h) || exists n :: Allows(t, n, h)))
  {
    var u := Exec(t, op).tree;
    forall h
      ensures h in u.hosts <==> h in t.hosts && (op != DeleteHost(h) || exists n :: Allows(t, n, h))
    {
      if op == DeleteHost(h) {
        assert Referenced(t, h) ==> exists n <- t.subsystems :: Allows(t, n, h);
        assert (exists n :: Allows(t, n, h)) ==> Referenced(t, h);
      }
    }
  }

  /** Links go with either end, or on their own. */
  lemma RemovalUnlinks(t: Tree, op: Op, id: Int32, n: string)
    requires op.DeleteSubsys? || op.DeleteNs? || op.DeleteHost? || op.DeletePort? || op.UnlinkHost? || op.UnlinkPort?
    requires WellLinked(t)
    ensures (id, n) in Exec(t, op).tree.links <==>
      (id, n) in t.links && op != DeleteSubsys(n) && op != DeletePort(id) && op != UnlinkPort(n, id)
  {
  }

  /** What a creation or a link puts in place; whatever was there stays, but for the access of
      a subsystem and the attributes of a port that is not in use. */
  lemma CreationAdds(t: Tree, op: Op)
    requires op.CreateSubsys? || op.CreateNs? || op.CreateHost? || op.LinkHost? || op.LinkPort?
    ensures var (u, ok) := (Exec(t, op).tree, Exec(t, op).ok);
      && (ok <==> match op
           case CreateNs(n, _, _, _) => n in t.subsystems
           case LinkHost(n, h) => n in t.subsystems && (h in t.hosts || Allows(t, n, h))
           case LinkPort(n, id) => id in t.ports && (n in t.subsystems || (id, n) in t.links)
           case _ => true)
      && (forall n, any :: HasSubsys(u, n, any) <==>
           if op.CreateSubsys? && op.nqn == n then any == (op.allowany != 0) else HasSubsys(t, n, any))
      && (forall n, h :: Allows(u, n, h) <==> Allows(t, n, h) || (ok && op == LinkHost(n, h)))
      && (forall h :: h in u.hosts <==> h in t.hosts || op == CreateHost(h))
      && (forall id: Int32, n :: (id, n) in u.links <==> (id, n) in t.links || (ok && op == LinkPort(n, id)))
      && u.ports == t.ports
  {
  }

  lemma CreateNsAdds(t: Tree, op: Op, n: string, id: Int32, d: Device)
    ensures op.CreateNs? && op.nqn in t.subsystems ==>
      (HasNs(Exec(t, op).tree, n, id, d) <==>
        HasNs(t, n, id, d) ||
        (op.nqn == n && op.nsid == id && (forall e :: !HasNs(t, n, id, e)) &&
         d == if op.devid == -1 then NullBlock else NvmeDevice(op.devid, op.devnsid)))
    ensures op.CreateSubsys? || op.CreateHost? || op.LinkHost? || op.LinkPort? || op.CreatePort? ==>
      (HasNs(Exec(t, op).tree, n, id, d) <==> HasNs(t, n, id, d))
  {
    if op.CreateNs? && n in t.subsystems && id in t.subsystems[n].namespaces {
      assert HasNs(t, n, id, t.subsystems[n].namespaces[id]);
    }
  }

  /** A port that no subsystem is linked to takes the attributes; one that is in use keeps its
      own, and then the call succeeds only when they are the same. */
  lemma CreatePortSets(t: Tree, op: Op, id: Int32, p: Port)
    requires op.CreatePort?
    ensures var (u, ok) := (Exec(t, op).tree, Exec(t, op).ok);
      var treq := if op.req == 1 then Required else if op.req == 2 then NotRequired else NotSpecified;
      var given := Port(op.fam, op.typ, treq, op.addr, op.svcid);
      var frozen := op.id in t.ports && exists n :: (op.id, n) in t.links;
      && u == t.(ports := u.ports)
      && (HasPort(u, id, p) <==> if id == op.id && !frozen then p == given else HasPort(t, id, p))
      && (ok <==> (frozen ==> HasPort(t, op.id, given)))
  {
    if Enabled(t, op.id) {
      var l :| l in t.links && l.0 == op.id;
      assert (op.id, l.1) in t.links;
    }
  }

  /** A removal undoes the creation of what was not there before. */
  lemma Undoes(t: Tree, n: string, h: string, id: Int32, d: Int32, m: Int32)
    requires WellLinked(t)
    ensures n !in t.subsystems ==> Exec(Exec(t, CreateSubsys(n, m)).tree, DeleteSubsys(n)).tree == t
    ensures n in t.subsystems && id !in t.subsystems[n].namespaces ==>
      Exec(Exec(t, CreateNs(n, id, d, m)).tree, DeleteNs(n, id)).tree == t
    ensures h !in t.hosts ==> Exec(Exec(t, CreateHost(h)).tree, DeleteHost(h)).tree == t
    ensures n in t.subsystems && h in t.hosts && h !in t.subsystems[n].allowed ==>
      Exec(Exec(t, LinkHost(n, h)).tree, UnlinkHost(n, h)).tree == t
    ensures (id, n) !in t.links ==> Exec(Exec(t, LinkPort(n, id)).tree, UnlinkPort(n, id)).tree == t
  {
    if n !in t.subsystems {
      UndoSubsys(t, n, m);
    }
    UndoMember(t, n, h, id, d, m);
    if h !in t.hosts {
      var u := Exec(t, CreateHost(h)).tree;
      assert !Referenced(u, h);
      assert t.hosts + {h} - {h} == t.hosts;
    }
    if (id, n) !in t.links {
      assert t.links - {(id, n)} == t.links && t.links + {(id, n)} - {(id, n)} == t.links;
    }
  }

  lemma UndoSubsys(t: Tree, n: string, any: Int32)
    requires WellLinked(t) && n !in t.subsystems
    ensures Exec(Exec(t, CreateSubsys(n, any)).tree, DeleteSubsys(n)).tree == t
  {
    var u := Exec(t, CreateSubsys(n, any)).tree;
    assert u.subsystems - {n} == t.subsystems;
    assert (set l <- u.links | l.1 != n) == t.links;
  }

  lemma UndoMember(t: Tree, n: string, h: string, id: Int32, d: Int32, m: Int32)
    ensures n in t.subsystems && id !in t.subsystems[n].namespaces ==>
      Exec(Exec(t, CreateNs(n, id, d, m)).tree, DeleteNs(n, id)).tree == t
    ensures n in t.subsystems && h in t.hosts && h !in t.subsystems[n].allowed ==>
      Exec(Exec(t, LinkHost(n, h)).tree, UnlinkHost(n, h)).tree == t
  {
    if n in t.subsystems {
      var s := t.subsystems[n];
      assert t.subsystems[n := s] == t.subsystems;
      if id !in s.namespaces {
        assert s.namespaces[id := DeviceOf(d, m)] - {id} == s.namespaces;
      }
      if h !in s.allowed {
        assert s.allowed + {h} - {h} == s.allowed;
      }
    }
  }
}
