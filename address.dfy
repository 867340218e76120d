/** The postal address carried, unchecked, by companies and driving schools. */
module Address {
  datatype Address = Address(street: string, city: string, zipCode: string, country: string)
}
