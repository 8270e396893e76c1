/**
  * EachCommandWithAreaListener: an each command whose `listener` attribute
  * names a context variable holding an area listener. The first time the
  * command is applied it looks the listener up and attaches it to each of
  * its areas; later applications attach nothing.
  */
module EachWithListener {
  import opened Wrappers
  import opened Areas

  /** The listener attribute names a variable that does not hold an area listener. */
  datatype ConfigError = NotAnAreaListener(name: string)

  /**
    * The listener the attribute selects: none when the attribute is unset or
    * empty; the variable's listener when the named variable holds one; an
    * error when it is absent or holds anything else.
    */
  function CreateAreaListener(listener: Option<string>, context: Context): (r: Result<Option<AreaListener>, ConfigError>)
    ensures r == Success(None) <==> listener == None || listener == Some("")
    ensures r.Success? && r.value.Some? <==>
      listener.Some? && listener.value != "" && listener.value in context && context[listener.value].ListenerValue?
    ensures r.Success? && r.value.Some? ==> r.value.value == context[listener.value].listener
    ensures r.Failure? <==>
      listener.Some? && listener.value != "" && !(listener.value in context && context[listener.value].ListenerValue?)
    ensures r.Failure? ==> r.error == NotAnAreaListener(listener.value)
  {
    if listener.None? || listener.value == "" then Success(None)
    else if listener.value in context && context[listener.value].ListenerValue? then
      Success(Some(context[listener.value].listener))
    else Failure(NotAnAreaListener(listener.value))
  }

  class EachCommandWithAreaListener {
    const areaList: seq<Area>
    /** The name of the context variable holding the listener; unset is None. */
    var listener: Option<string>
    /** Whether the attachment step has already run. */
    var registered: bool

    constructor(areaList: seq<Area>)
      ensures this.areaList == areaList
      ensures listener == None && !registered
    {
      this.areaList := areaList;
      this.listener := None;
      this.registered := false;
    }

    method GetListener() returns (name: Option<string>)
      ensures name == listener
    {
      name := listener;
    }

    method SetListener(name: Option<string>)
      modifies this
      ensures listener == name && registered == old(registered)
    {
      listener := name;
    }

    /**
      * On the first successful application, attaches the selected listener
      * (if any) to each area, once per occurrence of the area, and marks the
      * command registered. Once registered, an application changes nothing.
      * A lookup error attaches nothing and leaves the command unregistered,
      * so the lookup is tried again on the next application.
      */
    method ApplyAt(context: Context) returns (r: Result<(), ConfigError>)
      modifies this, set a | a in areaList
      ensures listener == old(listener)
      ensures old(registered) ==> r.Success? && registered
      ensures old(registered) ==> forall a :: a in areaList && old(allocated(a)) ==> a.listeners == old(a.listeners)
      ensures !old(registered) ==>
        match CreateAreaListener(listener, context)
        case Failure(e) =>
          && r == Failure(e) && !registered
          && forall a :: a in areaList && old(allocated(a)) ==> a.listeners == old(a.listeners)
        case Success(None) =>
          && r.Success? && registered
          && forall a :: a in areaList && old(allocated(a)) ==> a.listeners == old(a.listeners)
        case Success(Some(l)) =>
          && r.Success? && registered
          && forall a :: a in areaList && old(allocated(a)) ==>
               a.listeners == old(a.listeners) + Repeat(l, multiset(areaList)[a])
    {
      if !registered {
        var created := CreateAreaListener(listener, context);
        if created.Failure? {
          return Failure(created.error);
        }
        if created.value.Some? {
          AttachToAll(areaList, created.value.value);
        }
        registered := true;
      }
      r := Success(());
    }
  }
}
