/**
 * The client registry (class Webservice): `create($service)` builds at most
 * one client per service name and hands back the same instance afterwards.
 */
module WebserviceRegistry {
  import opened Wrappers
  import opened ServiceDescription

  /** A client: the service name and the description built for it. */
  class Client {
    const serviceName: string
    const description: Description

    constructor(serviceName: string, description: Description)
      ensures this.serviceName == serviceName && this.description == description
    {
      this.serviceName := serviceName;
      this.description := description;
    }
  }

  /** The definition configured for a service; an unconfigured service has only empty sections. */
  function DefinitionFor(config: map<string, Definition>, service: string): Definition
  {
    if service in config then config[service] else Definition([], [], [], [])
  }

  /** An unconfigured service has no baseUrl, so no client can be built for it. */
  lemma UnconfiguredServiceFails(config: map<string, Definition>, service: string)
    requires service !in config
    ensures Construct(service, DefinitionFor(config, service)) == Failure(SchemaError(BaseUrlMessage))
  {
  }

  /** `new Client($service)`: the client exists only if its description could be built. */
  method NewClient(service: string, config: map<string, Definition>) returns (r: Result<Client, Error>)
    ensures r.Success? <==> Construct(service, DefinitionFor(config, service)).Success?
    ensures r.Success? ==> fresh(r.value) && fresh(r.value.description) && r.value.serviceName == service
    ensures r.Success? ==> r.value.description.Snapshot() == Construct(service, DefinitionFor(config, service)).value
    ensures r.Failure? ==> r.error == Construct(service, DefinitionFor(config, service)).error
  {
    var d := Description.Create(service, DefinitionFor(config, service));
    if d.Failure? {
      return Failure(d.error);
    }
    var c := new Client(service, d.value);
    return Success(c);
  }

  class Webservice {
    /** Instantiated clients keyed by service name. */
    var clients: map<string, Client>

    constructor()
      ensures clients == map[]
    {
      clients := map[];
    }

    /**
     * `create($service)`: a stored client is returned as it is; otherwise a
     * new one is built and stored under the name, unless building it fails,
     * in which case nothing is stored.
     */
    method Create(service: string, config: map<string, Definition>) returns (r: Result<Client, Error>)
      modifies this
      ensures service in old(clients) ==> r == Success(old(clients)[service]) && clients == old(clients)
      ensures service !in old(clients) ==>
        (r.Success? <==> Construct(service, DefinitionFor(config, service)).Success?)
      ensures service !in old(clients) && r.Success? ==>
        fresh(r.value) && r.value.serviceName == service && clients == old(clients)[service := r.value]
      ensures service !in old(clients) && r.Success? ==>
        r.value.description.Snapshot() == Construct(service, DefinitionFor(config, service)).value
      ensures r.Failure? ==> clients == old(clients) && r.error == Construct(service, DefinitionFor(config, service)).error
      ensures r.Success? ==> service in clients && clients[service] == r.value
      ensures forall other :: other != service ==> (other in clients <==> other in old(clients))
      ensures forall other :: other != service && other in clients ==> clients[other] == old(clients)[other]
    {
      if service !in clients {
        var c := NewClient(service, config);
        if c.Failure? {
          return Failure(c.error);
        }
        clients := clients[service := c.value];
      }
      return Success(clients[service]);
    }
  }

  /** Two successive calls for the same name yield the same instance, and the second builds nothing. */
  method CreateTwice(registry: Webservice, service: string, config: map<string, Definition>) returns (first: Result<Client, Error>, second: Result<Client, Error>)
    modifies registry
    ensures first.Success? ==> second == first && registry.clients == old(registry.clients)[service := first.value]
    ensures first.Success? && service in old(registry.clients) ==> registry.clients == old(registry.clients)
  {
    first := registry.Create(service, config);
    second := registry.Create(service, config);
  }
}
