/** The entities of the SOVD hierarchy and references to them. */
module Entities {
  import opened Sequences

  type Id = Text

  datatype EntityKind = ComponentKind | AppKind | AreaKind

  datatype EntityRef = EntityRef(kind: EntityKind, id: Id)

  datatype Component =
    Component(id: Id, name: Text, areaId: Option<Id>, tags: seq<Text>, translationId: Option<Text>)

  /** `hostId` is the component the app is located on. It need not exist. */
  datatype App =
    App(id: Id, name: Text, hostId: Id, areaId: Option<Id>, tags: seq<Text>, translationId: Option<Text>)

  datatype Area = Area(id: Id, name: Text, tags: seq<Text>, translationId: Option<Text>)
}
