/**
 Inventory components (internal/scraper/types.go).
 */
module Components {

  datatype Component = Component(
    typ: string,
    name: string,
    version: string,
    purl: string,
    hashes: map<string, string>,
    source: string,
    locator: string,
    confidence: string,
    properties: map<string, string>,
    children: seq<Component>)

  const CONTAINER := "container"
  const APPLICATION := "application"
  const ML_MODEL := "machine-learning-model"
  const DATA := "data"

  const MAX_COMPONENTS := 256
}
