/**
 * Looking up a configuration entity by internal name: the configured
 * classes are tried in order and the first one whose internal name matches
 * answers with the first row of its table.
 */
module ConfigController {
  import opened Php

  const NotFoundMessage: string := "not found"

  /** A configured entity class and the internal name a new instance reports. */
  datatype ConfigClass = ConfigClass(className: string, internalName: string)

  /**
   * The answer: the matching class's first row (`null` when its table is
   * empty), or a not-found exception object returned as a value.
   */
  datatype ConfigResponse<T> = Found(config: Option<T>) | NotFoundReturned(message: string)

  /**
   * `getConfigAction`. `firstRow(c)` is what `findOneBy([])` returns for
   * class `c`; `formSubmissions` is the list the action fetches first and
   * never uses, so no clause below mentions it.
   */
  method GetConfigAction<T, Submission>(entities: seq<ConfigClass>, firstRow: string -> Option<T>,
                                        formSubmissions: seq<Submission>, internalName: string)
    returns (r: ConfigResponse<T>)
    ensures r.NotFoundReturned? <==> forall i :: 0 <= i < |entities| ==> entities[i].internalName != internalName
    ensures r.NotFoundReturned? ==> r.message == NotFoundMessage
    ensures r.Found? ==> exists k :: 0 <= k < |entities| && entities[k].internalName == internalName
                                     && (forall j :: 0 <= j < k ==> entities[j].internalName != internalName)
                                     && r.config == firstRow(entities[k].className)
  {
    var result := formSubmissions;
    var i := 0;
    while i < |entities|
      invariant 0 <= i <= |entities|
      invariant forall j :: 0 <= j < i ==> entities[j].internalName != internalName
    {
      var entity := entities[i];
      if entity.internalName == internalName {
        var config := firstRow(entity.className);
        return Found(config);
      }
      i := i + 1;
    }
    return NotFoundReturned(NotFoundMessage);
  }
}
