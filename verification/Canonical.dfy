/** The canonical permissions of the sync package (permission-sync/src/model/canonical_permission.py). */
module Canonical {

  /** The canonical access classes. */
  datatype Access = DATA_READ | DATA_WRITE | DATA_ADMIN | OBJECT_USE | WORKSPACE_VIEW | WORKSPACE_EDIT | WORKSPACE_ADMIN

  /** The equality key of the diff engine. */
  datatype Key = Key(principal: string, access: Access, fqn: string, kind: string)

  /** Where conflicts are looked for: a key without its access class. */
  datatype Securable = Securable(principal: string, fqn: string, kind: string)

  /**
   A permission; the workspace it is discovered in is not part of the key,
   nor is the name of its Snowflake user or role,
   the sixth column of the raw row, empty when there is none.
   */
  datatype Permission = Permission(principal: string, access: Access, fqn: string, kind: string, workspace: string,
                                   platform: string, grantee: string) {
    function KeyOf(): Key { Key(principal, access, fqn, kind) }
    function On(): Securable { Securable(principal, fqn, kind) }
  }

  function KeysOf(ps: seq<Permission>): set<Key> {
    set p | p in ps :: p.KeyOf()
  }

  lemma KeysOfMore(ps: seq<Permission>, p: Permission)
    ensures KeysOf(ps + [p]) == KeysOf(ps) + {p.KeyOf()}
  {
  }
}
