/**
 * The class-level state of EasyMysql: the registry of connection pools and
 * the class-wide query-count threshold, both written by every construction
 * and read by `executeQuery` and `executeTransaction`.
 */
module Registry {
  import opened JsValues
  import opened Breadcrumb
  import opened Driver

  /** An opaque database configuration handed to `mysql.createPool`. */
  datatype DbConfig = DbConfig(id: nat)

  /** The options object of the constructor. */
  datatype ConstructorOptions = ConstructorOptions(
    connPools: Option<map<string, Pool>>,
    queryCountThreshold: Option<int>,
    dbConfig: Option<DbConfig>)

  const InvalidConfigs: ErrorRecord :=
    AppendDetails(NewError("Invalid configs for easy-mysql instantiation"), Frame(ClassName, "constructor", ""))

  /** The static fields `EasyMysql.connectionPools` and `EasyMysql.queryCountThreshold`. */
  class EasyMysql {
    var connectionPools: Option<map<string, Pool>>
    var queryCountThreshold: Option<int>

    /** The class before any instance was constructed: neither field is set. */
    constructor Unconfigured()
      ensures connectionPools == None && queryCountThreshold == None
    {
      connectionPools := None;
      queryCountThreshold := None;
    }

    /**
     * `new EasyMysql(options)`. Given pools are registered as they are;
     * otherwise a database configuration yields a registry holding only the
     * general pool, `created` standing for what `mysql.createPool` returns;
     * with neither, the constructor throws and changes nothing. On success
     * the class threshold is overwritten, even with undefined.
     */
    method Construct(options: ConstructorOptions, general: string, created: Pool) returns (thrown: Option<ErrorRecord>)
      modifies this
      ensures thrown.Some? <==> options.connPools.None? && options.dbConfig.None?
      ensures thrown.Some? ==>
                && thrown.value == InvalidConfigs
                && connectionPools == old(connectionPools) && queryCountThreshold == old(queryCountThreshold)
      ensures options.connPools.Some? ==> connectionPools == options.connPools
      ensures options.connPools.None? && options.dbConfig.Some? ==>
                && connectionPools.Some? && connectionPools.value.Keys == {general}
                && connectionPools.value[general] == created
      ensures thrown.None? ==> queryCountThreshold == options.queryCountThreshold
    {
      if options.connPools.Some? {
        connectionPools := options.connPools;
      } else if options.dbConfig.Some? {
        connectionPools := Some(map[general := created]);
      } else {
        return Some(InvalidConfigs);
      }
      queryCountThreshold := options.queryCountThreshold;
      thrown := None;
    }
  }

  /**
   * The first construction of the class: a throwing one leaves both static
   * fields unset, a successful one sets the registry and the threshold.
   */
  method FirstConstruction(options: ConstructorOptions, general: string, created: Pool)
    returns (registry: EasyMysql, thrown: Option<ErrorRecord>)
    ensures thrown.Some? <==> options.connPools.None? && options.dbConfig.None?
    ensures thrown.Some? ==> registry.connectionPools == None && registry.queryCountThreshold == None
    ensures thrown.None? ==>
              && registry.connectionPools.Some?
              && registry.queryCountThreshold == options.queryCountThreshold
    ensures options.connPools.Some? ==> registry.connectionPools == options.connPools
    ensures options.connPools.None? && options.dbConfig.Some? ==>
              && registry.connectionPools.Some? && registry.connectionPools.value.Keys == {general}
              && registry.connectionPools.value[general] == created
  {
    registry := new EasyMysql.Unconfigured();
    thrown := registry.Construct(options, general, created);
  }
}
