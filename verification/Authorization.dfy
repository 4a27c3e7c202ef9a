/** The permission decision for one request, given the list of permissions of its key. */
module Authorization {
  import opened Glob
  import opened GlobLaws

  datatype Permission = Permission(resource: Bytes, action: Bytes)

  /** What the loader hands out: the nil list of a key without permissions, or a list of rows. */
  datatype Permissions = Unassigned | Assigned(rows: seq<Permission>)

  ghost predicate Grants(p: Permission, resource: Bytes, action: Bytes) {
    Instance(p.resource, resource) && Instance(p.action, action)
  }

  ghost predicate Allowed(perms: Permissions, resource: Bytes, action: Bytes) {
    perms.Unassigned? || exists p :: p in perms.rows && Grants(p, resource, action)
  }

  method Decide(perms: Permissions, resource: Bytes, action: Bytes) returns (ok: bool)
    ensures ok <==> Allowed(perms, resource, action)
    ensures ok <==> perms.Unassigned?
                    || exists p :: p in perms.rows && Instance(p.resource, resource) && Instance(p.action, action)
  {
    if perms.Unassigned? {
      return true;
    }
    for i := 0 to |perms.rows|
      invariant forall j :: 0 <= j < i ==> !Grants(perms.rows[j], resource, action)
    {
      var p := perms.rows[i];
      var byResource, _ := Match(p.resource, resource);
      if byResource {
        var byAction, _ := Match(p.action, action);
        if byAction {
          assert p in perms.rows && Grants(p, resource, action);
          return true;
        }
      }
    }
    return false;
  }

  // ---------------------------------------------------------------- what rows grant

  /** Rows without stars grant exactly the requests they spell out, and no rows grant nothing; a key
      without a list may do everything. */
  lemma PlainRowsAreLiteral(rows: seq<Permission>, resource: Bytes, action: Bytes)
    requires forall p :: p in rows ==> STAR !in p.resource && STAR !in p.action
    ensures Allowed(Assigned(rows), resource, action) <==> Permission(resource, action) in rows
    ensures Allowed(Unassigned, resource, action)
  {
    forall p | p in rows ensures Grants(p, resource, action) <==> p == Permission(resource, action) {
      PlainOrStar(p.resource, resource);
      PlainOrStar(p.action, action);
    }
  }

  /** A row with a star for the resource judges the action, and the other way round. */
  lemma StarColumns(text: Bytes, resource: Bytes, action: Bytes)
    requires STAR !in text
    ensures Allowed(Assigned([Permission(Text("*"), text)]), resource, action) <==> action == text
    ensures Allowed(Assigned([Permission(text, Text("*"))]), resource, action) <==> resource == text
  {
    var byAction, byResource := Permission(Text("*"), text), Permission(text, Text("*"));
    assert Text("*") == [STAR];
    PlainOrStar(text, action);
    PlainOrStar(text, resource);
    PlainOrStar([], action);
    PlainOrStar([], resource);
    assert byAction in [byAction] && byResource in [byResource];
  }

  // ---------------------------------------------------------------- how permissions compare

  /** p covers q: every request that q grants, p grants. */
  ghost predicate Covers(p: Permission, q: Permission) {
    forall resource, action :: Grants(q, resource, action) ==> Grants(p, resource, action)
  }

  /** Covering is decided by matching the two pairs of patterns as texts. */
  lemma CoversIffPatternsMatch(p: Permission, q: Permission)
    ensures Covers(p, q) <==> Instance(p.resource, q.resource) && Instance(p.action, q.action)
  {
    InstanceIsContainment(p.resource, q.resource);
    InstanceIsContainment(p.action, q.action);
    AcceptsItself(q.resource);
    AcceptsItself(q.action);
    AcceptsIffInstance(q.resource, q.resource);
    AcceptsIffInstance(q.action, q.action);
    if Covers(p, q) {
      assert Grants(q, q.resource, q.action);
      assert Grants(p, q.resource, q.action);
    }
  }

  /** Order and repetition of the rows do not matter, and more rows never forbid more. */
  lemma DecisionGrowsWithTheSet(a: seq<Permission>, b: seq<Permission>, resource: Bytes, action: Bytes)
    requires forall p :: p in a ==> p in b
    ensures Allowed(Assigned(a), resource, action) ==> Allowed(Assigned(b), resource, action)
    ensures (forall p :: p in b ==> p in a) ==>
              Allowed(Assigned(a), resource, action) == Allowed(Assigned(b), resource, action)
  {
    if Allowed(Assigned(a), resource, action) {
      var p :| p in a && Grants(p, resource, action);
      assert p in b;
    }
  }

  /** A row whose two patterns are both matched by those of another row can be deleted. */
  lemma CoveredRowIsRedundant(rows: seq<Permission>, i: nat, j: nat, resource: Bytes, action: Bytes)
    requires i < |rows| && j < |rows| && i != j
    requires Instance(rows[j].resource, rows[i].resource) && Instance(rows[j].action, rows[i].action)
    ensures Allowed(Assigned(rows[..i] + rows[i + 1..]), resource, action)
            <==> Allowed(Assigned(rows), resource, action)
  {
    var fewer := rows[..i] + rows[i + 1..];
    CoversIffPatternsMatch(rows[j], rows[i]);
    assert fewer[if j < i then j else j - 1] == rows[j];
    forall p | p in rows ensures p in fewer || p == rows[i] {
      var k :| 0 <= k < |rows| && rows[k] == p;
      if k != i {
        assert fewer[if k < i then k else k - 1] == p;
      }
    }
    if Allowed(Assigned(rows), resource, action) {
      var p :| p in rows && Grants(p, resource, action);
      if p == rows[i] {
        assert Grants(rows[j], resource, action);
      }
    }
  }

  /** A key without permissions may do everything. Its first permission keeps that exactly when
      both patterns match the text "*"; any other first permission takes something away. */
  lemma FirstPermissionCloses(p: Permission)
    ensures (forall resource, action :: Allowed(Assigned([p]), resource, action))
            <==> Instance(p.resource, [STAR]) && Instance(p.action, [STAR])
  {
    var all := Permission([STAR], [STAR]);
    CoversIffPatternsMatch(p, all);
    forall resource, action ensures Grants(all, resource, action) {
      LoneStarAcceptsAll(resource);
      LoneStarAcceptsAll(action);
      AcceptsIffInstance([STAR], resource);
      AcceptsIffInstance([STAR], action);
    }
    if forall resource, action :: Allowed(Assigned([p]), resource, action) {
      forall resource, action ensures Grants(p, resource, action) {
        assert Allowed(Assigned([p]), resource, action);
      }
    }
    if Covers(p, all) {
      forall resource, action ensures Allowed(Assigned([p]), resource, action) {
        assert Grants(all, resource, action);
        assert p in [p];
      }
    }
  }
}
