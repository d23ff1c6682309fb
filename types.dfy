/** The record shapes of src/types.ts: a brewery as the API returns it (only
    the fields the page reads) and the page's application state. */
module Types {

  datatype Brewery = Brewery(
    name: string,
    breweryType: string,
    street: string,
    city: string,
    postalCode: string,
    phone: string,
    websiteUrl: string)

  datatype State = State(
    selectStateInput: string,
    breweries: seq<Brewery>,
    cities: seq<string>,
    filterByType: string,
    filterByCity: seq<string>,
    searchBreweriesInput: string)

  /** The module-level `state` as the page starts with it: everything empty. */
  const INITIAL_STATE := State("", [], [], "", [], "")
}
