/** The compiled modules, links and observed facts that the deployment compiler works on. */
module Modules {
  import opened Prelude

  datatype Dependency = Dependency(targetModule: string, interfaceId: string, consumer: string)

  datatype Interface = Interface(id: string, container: string)

  /** The part of a compiled module that names, links, claims and plans depend on. Containers and
      networks are their IDs; `secretIds` lists the bound secret IDs in the iteration order. */
  datatype Module = Module(
    instanceId: string,
    moduleId: string,
    version: string,
    packageSha: string,
    containers: seq<string>,
    networks: seq<string>,
    storagePaths: seq<string>,
    hostnames: seq<string>,
    secretIds: seq<string>,
    interfaces: seq<Interface>,
    dependencies: seq<Dependency>,
    actions: map<string, string>,
    actionFiles: map<string, string>,
    validationAction: string,
    updateFrom: map<string, seq<string>>)

  datatype Link = Link(relationship: string, name: string, subnet: string, alias: string,
                       provider: string, consumer: string)

  datatype ObservedNetwork = ObservedNetwork(name: string, subnet: string, relationship: string)

  /** Instance IDs are non-empty and pairwise distinct. */
  predicate DistinctInstances(mods: seq<Module>) {
    && (forall i :: 0 <= i < |mods| ==> mods[i].instanceId != "")
    && (forall i, j :: 0 <= i < j < |mods| ==> mods[i].instanceId != mods[j].instanceId)
  }

  predicate IsIdentifierChar(c: char) {
    'a' <= c <= 'z' || '0' <= c <= '9' || c == '-' || c == '_' || c == '.'
  }

  /** What the identifier pattern of the module contract guarantees and is used here. */
  predicate IsIdentifier(s: string) {
    |s| > 0 && forall i :: 0 <= i < |s| ==> IsIdentifierChar(s[i])
  }

  /** The uniqueness and identifier checks that contract validation has already made. */
  predicate ValidContract(m: Module) {
    && Distinct(m.containers) && Distinct(m.networks) && Distinct(m.dependencies)
    && (forall c :: c in m.containers ==> IsIdentifier(c))
    && (forall n :: n in m.networks ==> IsIdentifier(n))
    && (forall d :: d in m.dependencies ==> IsIdentifier(d.interfaceId) && d.consumer in m.containers)
    && (forall x :: x in m.interfaces ==> x.container in m.containers)
  }

  predicate DistinctRelationships(links: seq<Link>) {
    forall i, j :: 0 <= i < j < |links| ==> links[i].relationship != links[j].relationship
  }
}
