/**
 The part of a CycloneDX document that the builder writes and the search reads.
 */
module CycloneDx {

  datatype Hash = Hash(alg: string, value: string)

  datatype Property = Property(name: string, value: string)

  datatype CdxComponent = CdxComponent(
    ref: string,
    typ: string,
    name: string,
    version: string,
    purl: string,
    hashes: seq<Hash>,
    properties: seq<Property>,
    components: seq<CdxComponent>)
}
